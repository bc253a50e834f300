/**
 * The category cache in front of the URL classifier: hostnames are
 * lower-cased into keys of a key-value store, lookups count hits and
 * misses, and every operation degrades to a neutral answer while the store
 * is unavailable.
 */
module CategoryCache {
  import opened Base

  // ---------------------------------------------------------------------
  // Reconnection
  // ---------------------------------------------------------------------

  datatype Reconnect = GiveUp | RetryAfter(ms: int)

  /** `reconnectStrategy`: give up after ten retries, otherwise wait
      `retries * 100` milliseconds, capped at three seconds. */
  function ReconnectStrategy(retries: int): (r: Reconnect)
    ensures r.GiveUp? <==> retries > 10
  {
    if retries > 10 then GiveUp
    else RetryAfter(if retries * 100 < 3000 then retries * 100 else 3000)
  }

  /** The back-off grows by 100 ms per retry and never reaches its 3-second
      cap, because the eleventh retry gives up first. */
  lemma BackoffNeverReachesCap(retries: int)
    requires retries <= 10
    ensures ReconnectStrategy(retries) == RetryAfter(retries * 100)
    ensures ReconnectStrategy(retries).ms <= 1000
  {
  }

  // ---------------------------------------------------------------------
  // Keys and counters
  // ---------------------------------------------------------------------

  const KeyPrefix := "category:hostname:"
  const HitsKey := "cache:stats:hits"
  const MissesKey := "cache:stats:misses"
  const AiCallsKey := "cache:stats:ai_calls"

  /** The store key of a hostname. */
  function Key(hostname: string): (k: string)
    ensures |k| == |KeyPrefix| + |hostname| && k[..|KeyPrefix|] == KeyPrefix
  {
    KeyPrefix + Lower(hostname)
  }

  /** Keys are case-insensitive in the hostname: two hostnames share a key
      exactly when they agree after lower-casing. */
  lemma KeyIgnoresCase(h1: string, h2: string)
    ensures Key(h1) == Key(h2) <==> Lower(h1) == Lower(h2)
  {
    if Key(h1) == Key(h2) {
      assert Lower(h1) == Key(h1)[|KeyPrefix|..];
      assert Lower(h2) == Key(h2)[|KeyPrefix|..];
    }
  }

  /** No hostname key is one of the three statistics counters. */
  lemma KeysAreNotCounters(hostname: string)
    ensures Key(hostname) != HitsKey && Key(hostname) != MissesKey && Key(hostname) != AiCallsKey
  {
    assert Key(hostname)[..|KeyPrefix|] == KeyPrefix;
    assert Key(hostname)[2] == KeyPrefix[2] == 't';
    assert HitsKey[2] == MissesKey[2] == AiCallsKey[2] == 'c';
  }

  /** The text of a counter the store can increment. */
  predicate IsCounterText(s: string)
  {
    |s| > 0 && AllDigits(s) && (s == "0" || s[0] != '0')
  }

  /** The value a counter holds, 0 when absent or not a counter. */
  function CounterValue(store: map<string, string>, key: string): nat
  {
    if key in store && IsCounterText(store[key]) then DecimalValue(store[key]) else 0
  }

  /** `INCR key`: an absent key becomes "1", a counter goes up by one, and
      any other value is left alone (the store's error is swallowed). */
  function Incremented(store: map<string, string>, key: string): (r: map<string, string>)
    ensures r.Keys == store.Keys + {key}
    ensures forall k :: k in store && k != key ==> r[k] == store[k]
  {
    if key !in store then store[key := "1"]
    else if IsCounterText(store[key]) then store[key := NatToString(DecimalValue(store[key]) + 1)]
    else store
  }

  lemma NatToStringIsCounterText(n: nat)
    ensures IsCounterText(NatToString(n))
  {
  }

  /** Incrementing a well-formed (or absent) counter adds exactly one. */
  lemma IncrementAddsOne(store: map<string, string>, key: string)
    requires key !in store || IsCounterText(store[key])
    ensures IsCounterText(Incremented(store, key)[key])
    ensures CounterValue(Incremented(store, key), key) == CounterValue(store, key) + 1
  {
    if key !in store {
      assert "1"[..0] == "";
      assert DecimalValue("1") == 1;
    } else {
      DecimalValueOfNatToString(DecimalValue(store[key]) + 1);
      NatToStringIsCounterText(DecimalValue(store[key]) + 1);
    }
  }

  predicate CountersWellFormed(store: map<string, string>)
  {
    (HitsKey !in store || IsCounterText(store[HitsKey]))
    && (MissesKey !in store || IsCounterText(store[MissesKey]))
  }

  /** What a lookup returns on an available store. */
  function Cached(store: map<string, string>, hostname: string): Option<string>
  {
    if Key(hostname) in store then Some(store[Key(hostname)]) else None
  }

  /** A hit is a found, non-empty category. */
  predicate IsHit(found: Option<string>)
  {
    found.Some? && found.value != ""
  }

  /** The store after a lookup on an available store: one counter more. */
  function AfterLookup(store: map<string, string>, hostname: string): map<string, string>
  {
    Incremented(store, if IsHit(Cached(store, hostname)) then HitsKey else MissesKey)
  }

  /** Each lookup counts exactly once: a hit adds one to the hits and
      leaves the misses alone, a miss the other way round; the cached
      categories themselves do not change. */
  lemma LookupCountsOnce(store: map<string, string>, hostname: string, other: string)
    requires CountersWellFormed(store)
    ensures var after := AfterLookup(store, hostname);
      CountersWellFormed(after)
      && (IsHit(Cached(store, hostname)) ==>
            CounterValue(after, HitsKey) == CounterValue(store, HitsKey) + 1
            && CounterValue(after, MissesKey) == CounterValue(store, MissesKey))
      && (!IsHit(Cached(store, hostname)) ==>
            CounterValue(after, MissesKey) == CounterValue(store, MissesKey) + 1
            && CounterValue(after, HitsKey) == CounterValue(store, HitsKey))
      && Cached(after, other) == Cached(store, other)
  {
    KeysAreNotCounters(other);
    if IsHit(Cached(store, hostname)) {
      IncrementAddsOne(store, HitsKey);
    } else {
      IncrementAddsOne(store, MissesKey);
    }
  }

  /** Only a non-empty category is reported by the bulk lookup. */
  function BulkEntry(store: map<string, string>, hostname: string): Option<string>
  {
    if IsHit(Cached(store, hostname)) then Cached(store, hostname) else None
  }

  // ---------------------------------------------------------------------
  // The cache module's state
  // ---------------------------------------------------------------------

  /** The client's connection events. */
  datatype ClientEvent = ClientError | Connect | Ready | Reconnecting | End

  class RedisCache {
    var hasClient: bool
    var isAvailable: bool
    var store: map<string, string>

    predicate Usable()
      reads this
    {
      isAvailable && hasClient
    }

    constructor (store0: map<string, string>)
      ensures !hasClient && !isAvailable && store == store0
    {
      hasClient := false;
      isAvailable := false;
      store := store0;
    }

    /** `initRedis`: the client exists from now on; it is usable when the
        connection and the ping succeed. */
    method Init(connected: bool)
      modifies this
      ensures hasClient && isAvailable == connected && store == old(store)
    {
      hasClient := true;
      isAvailable := connected;
    }

    /** The event handlers: only `ready` makes the cache available;
        `connect` changes nothing; the others make it unavailable. */
    method Handle(e: ClientEvent)
      modifies this
      ensures e == Connect ==> isAvailable == old(isAvailable)
      ensures e != Connect ==> (isAvailable <==> e == Ready)
      ensures hasClient == old(hasClient) && store == old(store)
    {
      match e
      case Ready => isAvailable := true;
      case Connect =>
      case _ => isAvailable := false;
    }

    /** `getCachedCategory`. */
    method GetCachedCategory(hostname: string) returns (category: Option<string>)
      modifies this
      ensures !old(Usable()) ==> category.None? && store == old(store)
      ensures old(Usable()) ==>
        category == Cached(old(store), hostname) && store == AfterLookup(old(store), hostname)
      ensures hasClient == old(hasClient) && isAvailable == old(isAvailable)
    {
      if !isAvailable || !hasClient {
        return None;
      }
      var key := Key(hostname);
      category := if key in store then Some(store[key]) else None;
      if category.Some? && category.value != "" {
        store := Incremented(store, HitsKey);
      } else {
        store := Incremented(store, MissesKey);
      }
    }

    /** `setCachedCategory`; the time-to-live is not modelled. */
    method SetCachedCategory(hostname: string, category: string) returns (saved: bool)
      modifies this
      ensures saved == old(Usable())
      ensures saved ==> store == old(store)[Key(hostname) := category]
      ensures !saved ==> store == old(store)
      ensures hasClient == old(hasClient) && isAvailable == old(isAvailable)
    {
      if !isAvailable || !hasClient {
        return false;
      }
      store := store[Key(hostname) := category];
      saved := true;
    }

    /** `invalidateCachedCategory`: true exactly when a key was deleted. */
    method InvalidateCachedCategory(hostname: string) returns (deleted: bool)
      modifies this
      ensures deleted <==> old(Usable()) && Key(hostname) in old(store)
      ensures old(Usable()) ==> store == old(store) - {Key(hostname)}
      ensures !old(Usable()) ==> store == old(store)
      ensures hasClient == old(hasClient) && isAvailable == old(isAvailable)
    {
      if !isAvailable || !hasClient {
        return false;
      }
      var key := Key(hostname);
      deleted := key in store;
      store := store - {key};
    }

    /** `getCachedCategoriesBulk`: the found, non-empty categories keyed by
        the hostnames as given (not lower-cased). */
    method GetCachedCategoriesBulk(hostnames: seq<string>) returns (result: map<string, string>)
      ensures !Usable() || hostnames == [] ==> result == map[]
      ensures Usable() ==>
        forall h :: (h in result <==> h in hostnames && BulkEntry(store, h).Some?)
      ensures forall h :: h in result ==> BulkEntry(store, h) == Some(result[h])
    {
      result := map[];
      if !isAvailable || !hasClient || |hostnames| == 0 {
        return;
      }
      var keys := seq(|hostnames|, i requires 0 <= i < |hostnames| => Key(hostnames[i]));
      var st := store;
      var values := seq(|keys|, i requires 0 <= i < |keys| => if keys[i] in st then Some(st[keys[i]]) else None);
      for i := 0 to |hostnames|
        invariant forall h :: h in result <==> h in hostnames[..i] && BulkEntry(store, h).Some?
        invariant forall h :: h in result ==> BulkEntry(store, h) == Some(result[h])
      {
        assert values[i] == Cached(store, hostnames[i]);
        if values[i].Some? && values[i].value != "" {
          result := result[hostnames[i] := values[i].value];
        }
        assert hostnames[..i + 1] == hostnames[..i] + [hostnames[i]];
      }
      assert hostnames[..|hostnames|] == hostnames;
    }

    /** `incrementAICalls`. */
    method IncrementAICalls()
      modifies this
      ensures old(Usable()) ==> store == Incremented(old(store), AiCallsKey)
      ensures !old(Usable()) ==> store == old(store)
      ensures hasClient == old(hasClient) && isAvailable == old(isAvailable)
    {
      if !isAvailable || !hasClient {
        return;
      }
      store := Incremented(store, AiCallsKey);
    }

    /** `resetStats`: the three counters go, nothing else does. */
    method ResetStats() returns (reset: bool)
      modifies this
      ensures reset == old(Usable())
      ensures reset ==> store == old(store) - {HitsKey, MissesKey, AiCallsKey}
      ensures !reset ==> store == old(store)
      ensures hasClient == old(hasClient) && isAvailable == old(isAvailable)
    {
      if !isAvailable || !hasClient {
        return false;
      }
      store := store - {HitsKey, MissesKey, AiCallsKey};
      reset := true;
    }
  }

  /** A category saved under one spelling of a hostname is found under any
      other spelling that lower-cases the same, and counts as a hit. */
  lemma SaveThenLookup(store: map<string, string>, saved: string, asked: string, category: string)
    requires Lower(saved) == Lower(asked) && category != ""
    ensures Cached(store[Key(saved) := category], asked) == Some(category)
    ensures IsHit(Cached(store[Key(saved) := category], asked))
  {
    KeyIgnoresCase(saved, asked);
  }

  /** After a reset every counter reads 0, while cached categories stay. */
  lemma ResetClearsCounters(store: map<string, string>, hostname: string)
    ensures var after := store - {HitsKey, MissesKey, AiCallsKey};
      CounterValue(after, HitsKey) == 0 && CounterValue(after, MissesKey) == 0
      && CounterValue(after, AiCallsKey) == 0
      && Cached(after, hostname) == Cached(store, hostname)
  {
    KeysAreNotCounters(hostname);
  }
}

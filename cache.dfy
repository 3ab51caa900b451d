/** The process-wide response cache of lib/cache.ts: a map from key to the
    serialized payload and the instant (epoch milliseconds) it was stored.
    The clock is the parameter `now`; payloads are opaque strings. */
module Cache {
  import opened Wrappers
  import Text

  /** CACHE_DURATIONS, in milliseconds. */
  const PRICES: int := 5 * 60 * 1000
  const MARKETS: int := 5 * 60 * 1000
  const CHARTS: int := 30 * 60 * 1000
  const METADATA: int := 24 * 60 * 60 * 1000
  const TOKEN_DATA: int := 5 * 60 * 1000

  datatype Entry = Entry(data: string, time: int)

  /** An entry is served to a TTL-aware read while strictly younger than the TTL. */
  predicate IsFresh(e: Entry, ttl: int, now: int) {
    now - e.time < ttl
  }

  /** What a TTL-aware read returns and the map it leaves behind. */
  datatype ReadOutcome = ReadOutcome(value: Option<string>, entries: map<string, Entry>)

  /** `getFromCache(key, ttl)` at instant `now`: a hit only for a present and
      fresh entry; an entry found stale is evicted; nothing else is touched. */
  function Read(entries: map<string, Entry>, key: string, ttl: int, now: int): (r: ReadOutcome)
    ensures r.value.Some? <==> key in entries && IsFresh(entries[key], ttl, now)
    ensures r.value.Some? ==> r.value.value == entries[key].data && r.entries == entries
    ensures r.value.None? ==> r.entries == entries - {key}
  {
    if key in entries && IsFresh(entries[key], ttl, now) then
      ReadOutcome(Some(entries[key].data), entries)
    else if key in entries then
      ReadOutcome(None, entries - {key})
    else
      ReadOutcome(None, entries)
  }

  /** A read never changes, adds or removes any key other than the one read. */
  lemma ReadTouchesOnlyItsKey(entries: map<string, Entry>, key: string, ttl: int, now: int, other: string)
    requires other != key
    ensures var r := Read(entries, key, ttl, now);
            (other in r.entries <==> other in entries)
            && (other in entries ==> r.entries[other] == entries[other])
  {
  }

  /** A read of an absent key is a miss that leaves the map as it was. */
  lemma AbsentReadIsMissWithoutChange(entries: map<string, Entry>, key: string, ttl: int, now: int)
    requires key !in entries
    ensures Read(entries, key, ttl, now) == ReadOutcome(None, entries)
  {
  }

  /** The freshness test is strict: at exactly `ttl` milliseconds of age the
      entry is a miss and is evicted. */
  lemma AgeEqualToTtlIsMiss(entries: map<string, Entry>, key: string, ttl: int, now: int)
    requires key in entries && now - entries[key].time == ttl
    ensures Read(entries, key, ttl, now) == ReadOutcome(None, entries - {key})
  {
  }

  /** With a non-positive TTL no read of an entry stored at or before `now`
      ever hits, and any such entry is evicted. */
  lemma NonPositiveTtlAlwaysMisses(entries: map<string, Entry>, key: string, ttl: int, now: int)
    requires ttl <= 0
    requires key in entries ==> entries[key].time <= now
    ensures Read(entries, key, ttl, now) == ReadOutcome(None, entries - {key})
  {
  }

  /** `setCache(k, v)` then `getFromCache(k, ttl)` at the same instant with a
      positive TTL is a hit that returns what was stored and changes nothing. */
  lemma WriteThenReadHits(entries: map<string, Entry>, key: string, data: string, ttl: int, now: int)
    requires ttl > 0
    ensures var written := entries[key := Entry(data, now)];
            Read(written, key, ttl, now) == ReadOutcome(Some(data), written)
  {
  }

  /** The entry written at `t` stays readable for exactly `ttl` milliseconds. */
  lemma WrittenEntryLifetime(entries: map<string, Entry>, key: string, data: string, ttl: int, t: int, now: int)
    ensures var written := entries[key := Entry(data, t)];
            Read(written, key, ttl, now).value == if now < t + ttl then Some(data) else None
  {
  }

  /** The two directives of the `Cache-Control` header. */
  datatype CacheControl = CacheControl(sMaxAge: int, staleWhileRevalidate: int)

  /** `getCacheControlHeader(ttl)`'s numbers: whole seconds of the TTL rounded
      down, and half of that rounded down. */
  function CacheControlFor(ttl: int): (c: CacheControl)
    ensures c.sMaxAge * 1000 <= ttl < (c.sMaxAge + 1) * 1000
    ensures 2 * c.staleWhileRevalidate <= c.sMaxAge < 2 * c.staleWhileRevalidate + 2
  {
    var sMaxAge := ttl / 1000;
    CacheControl(sMaxAge, sMaxAge / 2)
  }

  /** The header text `getCacheControlHeader(ttl)` returns: for a
      non-negative TTL, the decimal whole seconds and half-seconds of it. */
  function CacheControlHeader(ttl: int): (h: string)
    ensures ttl >= 0 ==> h == "s-maxage=" + Text.NatToString(ttl / 1000)
                              + ", stale-while-revalidate=" + Text.NatToString(ttl / 2000)
  {
    if ttl >= 0 then HalfOfSeconds(ttl); DirectivesText(CacheControlFor(ttl))
    else DirectivesText(CacheControlFor(ttl))
  }

  /** Halving the whole seconds is rounding the TTL down to whole 2000 ms. */
  lemma HalfOfSeconds(ttl: int)
    requires ttl >= 0
    ensures ttl / 1000 / 2 == ttl / 2000
  {
    var q, r := ttl / 1000, ttl % 1000;
    var p, b := q / 2, q % 2;
    assert ttl == 2000 * p + (1000 * b + r);
    assert 0 <= 1000 * b + r < 2000;
  }

  function DirectivesText(c: CacheControl): string {
    "s-maxage=" + Text.IntToString(c.sMaxAge)
      + ", stale-while-revalidate=" + Text.IntToString(c.staleWhileRevalidate)
  }

  /** The header text in terms of the renderings of its two numbers. */
  lemma DirectivesTextOf(c: CacheControl, maxAge: string, stale: string)
    requires Text.IntToString(c.sMaxAge) == maxAge
    requires Text.IntToString(c.staleWhileRevalidate) == stale
    ensures DirectivesText(c) == "s-maxage=" + maxAge + ", stale-while-revalidate=" + stale
  {
  }

  /** The durations the routes use give these directives. */
  lemma CacheDurationDirectives()
    ensures CacheControlFor(MARKETS) == CacheControl(300, 150)
    ensures CacheControlFor(PRICES) == CacheControl(300, 150)
    ensures CacheControlFor(CHARTS) == CacheControl(1800, 900)
    ensures CacheControlFor(METADATA) == CacheControl(86400, 43200)
  {
  }

  lemma DecimalsOfMarkets()
    ensures Text.IntToString(300) == "300" && Text.IntToString(150) == "150"
  {
  }

  lemma DecimalsOfMetadata()
    ensures Text.IntToString(86400) == "86400" && Text.IntToString(43200) == "43200"
  {
    assert Text.NatToString(864) == "864" && Text.NatToString(8640) == "8640";
    assert Text.NatToString(432) == "432" && Text.NatToString(4320) == "4320";
  }

  /** The header text of the token-stats route, whose TTL is MARKETS. */
  lemma MarketsHeaderText()
    ensures CacheControlHeader(MARKETS) == "s-maxage=" + "300" + ", stale-while-revalidate=" + "150"
  {
    CacheDurationDirectives();
    DecimalsOfMarkets();
    DirectivesTextOf(CacheControl(300, 150), "300", "150");
  }

  /** The header text of the token-list route, whose TTL is METADATA. */
  lemma MetadataHeaderText()
    ensures CacheControlHeader(METADATA) == "s-maxage=" + "86400" + ", stale-while-revalidate=" + "43200"
  {
    assert CacheControlFor(METADATA) == CacheControl(86400, 43200) by {
      CacheDurationDirectives();
    }
    DecimalsOfMetadata();
    DirectivesTextOf(CacheControl(86400, 43200), "86400", "43200");
  }

  /** The `CACHE` map with `getFromCache` and `setCache`. */
  class Store {
    var entries: map<string, Entry>

    constructor ()
      ensures entries == map[]
    {
      entries := map[];
    }

    /** `getFromCache(key, ttl)` at instant `now`. */
    method Get(key: string, ttl: int, now: int) returns (value: Option<string>)
      modifies this
      ensures Read(old(entries), key, ttl, now) == ReadOutcome(value, entries)
    {
      if key in entries && now - entries[key].time < ttl {
        return Some(entries[key].data);
      }
      if key in entries {
        entries := entries - {key};
      }
      return None;
    }

    /** `setCache(key, data)` at instant `now`, `data` already serialized:
        the entry for `key` is replaced, every other entry is kept. */
    method Set(key: string, data: string, now: int)
      modifies this
      ensures entries == old(entries)[key := Entry(data, now)]
      ensures forall k :: k in old(entries) && k != key ==> k in entries && entries[k] == old(entries)[k]
    {
      entries := entries[key := Entry(data, now)];
    }
  }
}

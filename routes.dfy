/** The two cache-fronted `GET` handlers: the token statistics route
    (app/api/tokens/stats/route.ts) and the token list route
    (app/api/tokens/route.ts). Each runs the rate-limit check, the optional
    forced refresh, the cache read, the computation and the cache write, in
    that order. The handlers read the clock three times (in the limiter, in
    the cache read and in the cache write); those instants are the fields of
    `Instants`. `encode` is the serialization the cache stores. */
module Routes {
  import opened Wrappers
  import Cache
  import RateLimit
  import Tokens
  import Stats

  /** The query parameters and headers a handler looks at; `None` is absent. */
  datatype Request = Request(forwardedFor: Option<string>, realIp: Option<string>,
                             refresh: Option<string>, category: Option<string>)

  /** The clock readings of one request, in epoch milliseconds. */
  datatype Instants = Instants(limit: int, read: int, write: int)

  /** Whether the reply was served from the cache (`X-Cache`). */
  datatype CacheStatus = Hit | Miss

  /** A reply body: the rate-limit error, a stored serialization, or a value
      computed for this request. */
  datatype Body<T> = RateLimited | Cached(text: string) | Computed(value: T)

  datatype Reply<T> = Reply(status: int, cacheControl: string, xCache: Option<CacheStatus>, body: Body<T>)

  /** The shared state a handler works on: the cache and the limiter's records. */
  datatype State = State(entries: map<string, Cache.Entry>, records: map<string, RateLimit.Window>)

  /** Only the exact parameter value "true" forces a refresh. */
  predicate ForcesRefresh(refresh: Option<string>) {
    refresh == Some("true")
  }

  /** The cache-fronted handler shared by both routes, for a response `computed`
      under `key` with time to live `ttl`. */
  function Handle<T>(st: State, req: Request, at: Instants, key: string, ttl: int,
                     computed: T, encode: T -> string): (out: (Reply<T>, State))
    ensures var d := RateLimit.Admit(st.records, RateLimit.ClientKey(req.forwardedFor, req.realIp), at.limit);
            out.1.records == d.records
    ensures out.0.cacheControl == Cache.CacheControlHeader(ttl)
    ensures var d := RateLimit.Admit(st.records, RateLimit.ClientKey(req.forwardedFor, req.realIp), at.limit);
            (out.0.status == 429 <==> !d.allowed) && (d.allowed <==> out.0.status == 200)
    ensures out.0.body.RateLimited? <==> out.0.xCache.None?
    ensures out.0.body.Cached? <==> out.0.xCache == Some(Hit)
    ensures out.0.body.Computed? <==> out.0.xCache == Some(Miss)
    ensures out.0.body.Cached? ==> !ForcesRefresh(req.refresh) && key in st.entries
                                   && out.0.body.text == st.entries[key].data
    ensures out.0.body.Computed? ==> out.0.body.value == computed
  {
    var header := Cache.CacheControlHeader(ttl);
    var d := RateLimit.Admit(st.records, RateLimit.ClientKey(req.forwardedFor, req.realIp), at.limit);
    if !d.allowed then
      (Reply(429, header, None, RateLimited), State(st.entries, d.records))
    else
      var read := if ForcesRefresh(req.refresh) then Cache.ReadOutcome(None, st.entries)
                  else Cache.Read(st.entries, key, ttl, at.read);
      match read.value
      case Some(text) => (Reply(200, header, Some(Hit), Cached(text)), State(read.entries, d.records))
      case None =>
        (Reply(200, header, Some(Miss), Computed(computed)),
         State(read.entries[key := Cache.Entry(encode(computed), at.write)], d.records))
  }

  // ---------------------------------------------------------------------
  // The statistics route

  const StatsTtl: int := Cache.MARKETS

  /** The statistics handler on values. */
  function StatsHandle(st: State, req: Request, at: Instants, upstream: string -> Stats.Upstream,
                       encode: Stats.StatsResponse -> string): (out: (Reply<Stats.StatsResponse>, State))
    ensures out.0.status == 429
            <==> !RateLimit.Admit(st.records, RateLimit.ClientKey(req.forwardedFor, req.realIp), at.limit).allowed
    ensures out.0.cacheControl == Cache.CacheControlHeader(StatsTtl)
    ensures out.0.body.Computed? ==>
              out.0.body.value == Stats.StatsOf(Stats.Selected(Tokens.TokenList, req.category), upstream)
    ensures out.0.body.Cached? ==> Stats.CacheKey(req.category) in st.entries
                                   && out.0.body.text == st.entries[Stats.CacheKey(req.category)].data
  {
    var computed := Stats.StatsOf(Stats.Selected(Tokens.TokenList, req.category), upstream);
    Handle(st, req, at, Stats.CacheKey(req.category), StatsTtl, computed, encode)
  }

  /** `GET /api/tokens/stats`, changing the cache and the limiter in place. */
  method StatsGet(cache: Cache.Store, limiter: RateLimit.Limiter, req: Request, at: Instants,
                  upstream: string -> Stats.Upstream, encode: Stats.StatsResponse -> string)
    returns (reply: Reply<Stats.StatsResponse>)
    requires limiter.Valid()
    modifies cache, limiter
    ensures limiter.Valid()
    ensures (reply, State(cache.entries, limiter.records))
            == StatsHandle(State(old(cache.entries), old(limiter.records)), req, at, upstream, encode)
  {
    var header := Cache.CacheControlHeader(StatsTtl);
    var ip := RateLimit.ClientKey(req.forwardedFor, req.realIp);
    var allowed := limiter.Check(ip, at.limit);
    if !allowed {
      return Reply(429, header, None, RateLimited);
    }
    var key := Stats.CacheKey(req.category);
    if !ForcesRefresh(req.refresh) {
      var cached := cache.Get(key, StatsTtl, at.read);
      if cached.Some? {
        return Reply(200, header, Some(Hit), Cached(cached.value));
      }
    }
    var processed := Stats.Selected(Tokens.TokenList, req.category);
    var response := Stats.BuildStats(processed, upstream);
    cache.Set(key, encode(response), at.write);
    return Reply(200, header, Some(Miss), Computed(response));
  }

  // ---------------------------------------------------------------------
  // The token list route

  const ListTtl: int := Cache.METADATA
  const ListKey: string := "tokens_list"

  datatype ListResponse = ListResponse(success: bool, count: nat, data: seq<Tokens.TokenInfo>)

  /** The list response: the whole table and its length. */
  function ListOf(tokens: seq<Tokens.TokenInfo>): (r: ListResponse)
    ensures r.success && r.count == |r.data| && r.data == tokens
  {
    ListResponse(true, |tokens|, tokens)
  }

  /** The token list handler on values. */
  function ListHandle(st: State, req: Request, at: Instants, encode: ListResponse -> string)
    : (out: (Reply<ListResponse>, State))
    ensures out.0.status == 429
            <==> !RateLimit.Admit(st.records, RateLimit.ClientKey(req.forwardedFor, req.realIp), at.limit).allowed
    ensures out.0.cacheControl == Cache.CacheControlHeader(ListTtl)
    ensures out.0.body.Computed? ==> out.0.body.value == ListResponse(true, |Tokens.TokenList|, Tokens.TokenList)
    ensures out.0.body.Cached? ==> ListKey in st.entries && out.0.body.text == st.entries[ListKey].data
  {
    Handle(st, req, at, ListKey, ListTtl, ListOf(Tokens.TokenList), encode)
  }

  /** `GET /api/tokens`, changing the cache and the limiter in place. */
  method ListGet(cache: Cache.Store, limiter: RateLimit.Limiter, req: Request, at: Instants,
                 encode: ListResponse -> string)
    returns (reply: Reply<ListResponse>)
    requires limiter.Valid()
    modifies cache, limiter
    ensures limiter.Valid()
    ensures (reply, State(cache.entries, limiter.records))
            == ListHandle(State(old(cache.entries), old(limiter.records)), req, at, encode)
  {
    var header := Cache.CacheControlHeader(ListTtl);
    var ip := RateLimit.ClientKey(req.forwardedFor, req.realIp);
    var allowed := limiter.Check(ip, at.limit);
    if !allowed {
      return Reply(429, header, None, RateLimited);
    }
    if !ForcesRefresh(req.refresh) {
      var cached := cache.Get(ListKey, ListTtl, at.read);
      if cached.Some? {
        return Reply(200, header, Some(Hit), Cached(cached.value));
      }
    }
    var response := ListOf(Tokens.TokenList);
    cache.Set(ListKey, encode(response), at.write);
    return Reply(200, header, Some(Miss), Computed(response));
  }

  // ---------------------------------------------------------------------
  // Properties of the handler

  /** A rejected request answers 429 and leaves the cache as it was. */
  lemma RejectedRequestLeavesCache<T>(st: State, req: Request, at: Instants, key: string, ttl: int,
                                      computed: T, encode: T -> string)
    requires !RateLimit.Admit(st.records, RateLimit.ClientKey(req.forwardedFor, req.realIp), at.limit).allowed
    ensures var out := Handle(st, req, at, key, ttl, computed, encode);
            out.0.status == 429 && out.0.body == RateLimited && out.0.xCache.None? && out.1.entries == st.entries
  {
  }

  /** Without a forced refresh, a fresh entry is served as stored and the
      cache is not written. */
  lemma FreshEntryIsServed<T>(st: State, req: Request, at: Instants, key: string, ttl: int,
                              computed: T, encode: T -> string)
    requires RateLimit.Admit(st.records, RateLimit.ClientKey(req.forwardedFor, req.realIp), at.limit).allowed
    requires !ForcesRefresh(req.refresh)
    requires key in st.entries && Cache.IsFresh(st.entries[key], ttl, at.read)
    ensures var out := Handle(st, req, at, key, ttl, computed, encode);
            out.0 == Reply(200, Cache.CacheControlHeader(ttl), Some(Hit), Cached(st.entries[key].data))
            && out.1.entries == st.entries
  {
  }

  /** A forced refresh never reads: whatever is stored, with the request
      admitted, the response is computed and stored, stamped with the write
      instant, over an otherwise unchanged cache. */
  lemma RefreshRecomputes<T>(st: State, req: Request, at: Instants, key: string, ttl: int,
                             computed: T, encode: T -> string)
    requires RateLimit.Admit(st.records, RateLimit.ClientKey(req.forwardedFor, req.realIp), at.limit).allowed
    requires ForcesRefresh(req.refresh)
    ensures var out := Handle(st, req, at, key, ttl, computed, encode);
            out.0 == Reply(200, Cache.CacheControlHeader(ttl), Some(Miss), Computed(computed))
            && out.1.entries == st.entries[key := Cache.Entry(encode(computed), at.write)]
  {
  }

  /** An admitted request that finds no fresh entry computes the response and
      stores it; a stale entry it found is replaced, every other entry kept. */
  lemma MissStoresResponse<T>(st: State, req: Request, at: Instants, key: string, ttl: int,
                              computed: T, encode: T -> string)
    requires RateLimit.Admit(st.records, RateLimit.ClientKey(req.forwardedFor, req.realIp), at.limit).allowed
    requires !(key in st.entries && Cache.IsFresh(st.entries[key], ttl, at.read))
    ensures var out := Handle(st, req, at, key, ttl, computed, encode);
            out.0 == Reply(200, Cache.CacheControlHeader(ttl), Some(Miss), Computed(computed))
            && out.1.entries == st.entries[key := Cache.Entry(encode(computed), at.write)]
  {
    if !ForcesRefresh(req.refresh) {
      Cache.AbsentReadIsMissWithoutChange(st.entries - {key}, key, ttl, at.read);
      assert (st.entries - {key})[key := Cache.Entry(encode(computed), at.write)]
             == st.entries[key := Cache.Entry(encode(computed), at.write)];
    }
  }

  /** Only the request's own cache key can change. */
  lemma OtherKeysUntouched<T>(st: State, req: Request, at: Instants, key: string, ttl: int,
                              computed: T, encode: T -> string, other: string)
    requires other != key
    ensures var e := Handle(st, req, at, key, ttl, computed, encode).1.entries;
            (other in e <==> other in st.entries) && (other in e ==> e[other] == st.entries[other])
  {
    Cache.ReadTouchesOnlyItsKey(st.entries, key, ttl, at.read, other);
  }

  /** A miss followed, within the time to live and without a refresh, by an
      admitted request for the same key is a hit that returns the stored
      serialization. */
  lemma MissThenHit<T>(st: State, req1: Request, at1: Instants, req2: Request, at2: Instants,
                       key: string, ttl: int, computed: T, computed2: T, encode: T -> string)
    requires var out := Handle(st, req1, at1, key, ttl, computed, encode);
             out.0.xCache == Some(Miss)
    requires !ForcesRefresh(req2.refresh)
    requires at2.read - at1.write < ttl
    requires var st1 := Handle(st, req1, at1, key, ttl, computed, encode).1;
             RateLimit.Admit(st1.records, RateLimit.ClientKey(req2.forwardedFor, req2.realIp), at2.limit).allowed
    ensures var st1 := Handle(st, req1, at1, key, ttl, computed, encode).1;
            Handle(st1, req2, at2, key, ttl, computed2, encode).0
              == Reply(200, Cache.CacheControlHeader(ttl), Some(Hit), Cached(encode(computed)))
  {
    var st1 := Handle(st, req1, at1, key, ttl, computed, encode).1;
    assert key in st1.entries && st1.entries[key] == Cache.Entry(encode(computed), at1.write);
    FreshEntryIsServed(st1, req2, at2, key, ttl, computed2, encode);
  }

  /** The statistics route sends `s-maxage=300, stale-while-revalidate=150`,
      the token list route `s-maxage=86400, stale-while-revalidate=43200`. */
  lemma RouteHeaders(st: State, req: Request, at: Instants, upstream: string -> Stats.Upstream,
                     encodeStats: Stats.StatsResponse -> string, encodeList: ListResponse -> string)
    ensures StatsHandle(st, req, at, upstream, encodeStats).0.cacheControl
              == "s-maxage=" + "300" + ", stale-while-revalidate=" + "150"
    ensures ListHandle(st, req, at, encodeList).0.cacheControl
              == "s-maxage=" + "86400" + ", stale-while-revalidate=" + "43200"
  {
    Cache.MarketsHeaderText();
    Cache.MetadataHeaderText();
  }

  /** Whatever the route, a miss replies with the computed value and stores
      its serialization under the key, stamped with the write instant. */
  lemma MissReplyIsStored<T>(st: State, req: Request, at: Instants, key: string, ttl: int,
                             computed: T, encode: T -> string)
    requires Handle(st, req, at, key, ttl, computed, encode).0.xCache == Some(Miss)
    ensures var out := Handle(st, req, at, key, ttl, computed, encode);
            out.0.body == Computed(computed)
            && key in out.1.entries && out.1.entries[key] == Cache.Entry(encode(computed), at.write)
  {
  }

  /** On a miss the statistics route stores, under the key of its filter,
      the statistics of exactly the selected tokens. */
  lemma StatsMissStoresSelection(st: State, req: Request, at: Instants, upstream: string -> Stats.Upstream,
                                 encode: Stats.StatsResponse -> string)
    requires StatsHandle(st, req, at, upstream, encode).0.xCache == Some(Miss)
    ensures var computed := Stats.StatsOf(Stats.Selected(Tokens.TokenList, req.category), upstream);
            var out := StatsHandle(st, req, at, upstream, encode);
            out.0.body == Computed(computed)
            && Stats.CacheKey(req.category) in out.1.entries
            && out.1.entries[Stats.CacheKey(req.category)] == Cache.Entry(encode(computed), at.write)
  {
    var computed := Stats.StatsOf(Stats.Selected(Tokens.TokenList, req.category), upstream);
    MissReplyIsStored(st, req, at, Stats.CacheKey(req.category), StatsTtl, computed, encode);
  }

  /** On a miss the list route stores the whole table under its key. */
  lemma ListMissStoresTable(st: State, req: Request, at: Instants, encode: ListResponse -> string)
    requires ListHandle(st, req, at, encode).0.xCache == Some(Miss)
    ensures var out := ListHandle(st, req, at, encode);
            out.0.body == Computed(ListResponse(true, |Tokens.TokenList|, Tokens.TokenList))
            && ListKey in out.1.entries
            && out.1.entries[ListKey] == Cache.Entry(encode(ListOf(Tokens.TokenList)), at.write)
  {
    MissReplyIsStored(st, req, at, ListKey, ListTtl, ListOf(Tokens.TokenList), encode);
  }
}

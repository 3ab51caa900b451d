# Token statistics proxy: cache, rate limiter, launch dates and the stats route

This project models the resilience core of an edge-deployed proxy that serves
statistics about a fixed table of crypto tokens. The model covers:

- the process-wide response cache (`getFromCache`, `setCache`,
  `getCacheControlHeader`, `CACHE_DURATIONS`);
- the fixed-window per-client rate limiter (`checkRateLimit`, `getClientIP`);
- the token table, the ticker to upstream-id lookup, and the date logic that
  turns a token's launch-date text into epoch seconds and a day bucket;
- the `GET` handlers of the token statistics route, which aggregates upstream
  market data, and of the token list route.

Modules:

- `Cache` holds the cache as a class `Store`. Its field is a `map` from key
  to an entry of a serialized payload and a timestamp. `Store.Get` and
  `Store.Set` are tied to the pure `Cache.Read` and to a map update.
- `RateLimit` holds the limiter as a class `Limiter` over a `map` from a
  client key to a window. `Limiter.Check` is tied to the pure
  `RateLimit.Admit`. The class invariant is that every stored count lies
  between 1 and the maximum.
- `Tokens` has the token table, `CoinIdFromTicker`,
  `ParseStartDateToTimestamp` and `GetDaysFromStartDate`. `Calendar` has the
  ECMAScript day arithmetic behind `Date.UTC`. `Text` has the JavaScript
  string operations they need: lower and upper case, `trim`, `split`,
  `includes`, `parseInt` and the number rendering.
- `Stats` has the statistics computation:
  - the cache key and the category filter;
  - one record per token from its upstream result;
  - the totals `reduce` and the grouping `reduce`, each as a loop proved
    against a recursive definition;
  - the two stable descending sorts, defined in `Sorting`;
  - the averages.
- `Routes` has both handlers. A generic pure `Handle` models the shared
  flow: rate limit, optional refresh, cache read, compute, cache write. The
  methods `StatsGet` and `ListGet` run that flow on the `Store` and the
  `Limiter` objects.

Parameters stand in for the environment:

- the clock is integer epoch milliseconds;
- `Date.parse` gives a calendar date or nothing (`NaN`);
- the upstream `/coins/{id}` call gives a quote or a thrown error;
- JSON serialization is an opaque function from response to string.

Market figures are `real`.

## Model

| member | source | states |
|---|---|---|
| Cache.Read | lib/cache.ts:15-33 | A read hits exactly when the key is present and strictly younger than the TTL. A hit returns the stored payload and changes nothing. A miss evicts the key if present and touches nothing else. |
| Cache.ReadTouchesOnlyItsKey | lib/cache.ts:15-33 | No read adds, removes or changes any key other than the one read. |
| Cache.AbsentReadIsMissWithoutChange | lib/cache.ts:15-33 | Reading an absent key is a miss that leaves the map unchanged. |
| Cache.AgeEqualToTtlIsMiss | lib/cache.ts:19 | The freshness test is strict: an entry exactly `ttl` ms old is a miss and is evicted. |
| Cache.NonPositiveTtlAlwaysMisses | lib/cache.ts:19 | With TTL at most 0, an entry stored at or before `now` never hits and is evicted. |
| Cache.WriteThenReadHits | lib/cache.ts:15-41 | A write followed by a read at the same instant with a positive TTL hits, returns the written data and changes nothing. |
| Cache.WrittenEntryLifetime | lib/cache.ts:15-41 | An entry written at `t` is returned exactly while `now < t + ttl`. |
| Cache.Store.Get | lib/cache.ts:15-33 | The in-place read returns `Read`'s value and leaves `Read`'s map in the field. |
| Cache.Store.Set | lib/cache.ts:35-41 | The key's entry is replaced by the payload stamped with `now`. Every other entry is kept. |
| Cache.CacheControlFor | lib/cache.ts:44-46 | `s-maxage` is the TTL in whole seconds, rounded down. `stale-while-revalidate` is half of that, rounded down. |
| Cache.CacheControlHeader | lib/cache.ts:44-48 | For a non-negative TTL the header is `s-maxage=` with the decimal TTL in whole seconds, then `, stale-while-revalidate=` with the decimal TTL in whole 2-second units, which is half the seconds rounded down. |
| Cache.CacheDurationDirectives | lib/cache.ts:7-13 | MARKETS and PRICES (5 min) give 300/150. CHARTS (30 min) gives 1800/900. METADATA (24 h) gives 86400/43200. |
| Cache.MarketsHeaderText | lib/cache.ts:44-48 | The 5-minute header text is exactly `s-maxage=300, stale-while-revalidate=150`. |
| Cache.MetadataHeaderText | lib/cache.ts:44-48 | The 24-hour header text is exactly `s-maxage=86400, stale-while-revalidate=43200`. |
| RateLimit.Admit | lib/rate-limit.ts:23-41 | Admitted unless the client has an active window (reset time not yet passed) whose count has reached 100. No active window: a fresh window of count 1 ending one minute later. Admitted in a window: the count goes up by one. Rejected: nothing changes. Other clients are untouched. |
| RateLimit.AdmitKeepsWindowsValid | lib/rate-limit.ts:23-41 | Every call keeps each stored count between 1 and 100. |
| RateLimit.ReplayInsideWindow | lib/rate-limit.ts:27-40 | Inside a window of count `c`, the `i`-th further call is admitted exactly when `c + i < 100`. |
| RateLimit.BurstOfMaxRequestsThenReject | lib/rate-limit.ts:4-7 | A new client making 101 calls within the window its first call opens gets exactly 100 admitted and the 101st rejected. |
| RateLimit.AdmittedAfterWindowEnds | lib/rate-limit.ts:27-33 | Once the reset time has passed, the client is admitted with a fresh window, however full the old one was. |
| RateLimit.ClientKey | lib/rate-limit.ts:9-21 | A non-empty `x-forwarded-for` gives its first comma-separated element, trimmed, which holds no comma. Otherwise a non-empty `x-real-ip` gives itself. Otherwise the key is `default`. |
| RateLimit.Limiter.Check | lib/rate-limit.ts:23-41 | The in-place check returns `Admit`'s verdict, leaves `Admit`'s records in the field and keeps the bound on counts. |
| Tokens.CoinIdFromTicker | lib/tokens.ts:50-100 | A ticker whose upper-cased form is in the table gives the table's id, whatever the ticker's case. Any other ticker gives itself with each character lower-cased. |
| Tokens.CoinIdIgnoresCase | lib/tokens.ts:50-100 | Two tickers equal up to ASCII case map to the same upstream id, mapped or not. |
| Tokens.CoinIdExamples | lib/tokens.ts:51-99 | `apt` maps to `aptos` and `Inj` to `injective-protocol`. The unmapped `Foo` falls back to `foo`. |
| Tokens.YearAgoIsAYearBeforeNow | lib/tokens.ts:124 | The fallback instant is exactly 365 days of seconds before the current second. |
| Tokens.FirstFourDigitYear | lib/tokens.ts:118-120 | A year exists exactly when some position starts four digits. It is the value, from 0 to 9999, of the four digits at a position before which no position starts four digits. |
| Tokens.FirstDigitRun | lib/tokens.ts:118 | The match is the leftmost position where four digits start. No position before it starts four digits. It is none when no position does. |
| Tokens.ParseIntOfFourDigits | lib/tokens.ts:136-138 | `parseInt` of four digits is their decimal value. |
| Tokens.MonthOf | lib/tokens.ts:139-145 | A name in the month table gives its index from 0 to 11. The inherited member names `constructor` and `__proto__`, and only they, give no month. Any other name gives January. |
| Tokens.MonthYearTextShape | lib/tokens.ts:128 | Every text of lower-case letters, a whitespace run and four digits passes the month-year test. |
| Tokens.MonthYearTextParts | lib/tokens.ts:128 | Conversely, a text that passes the month-year test is at least one lower-case letter, then at least one whitespace character, then four digits ending the text. |
| Tokens.NotMonthYearText | lib/tokens.ts:128 | Letters and whitespace followed by anything other than four characters fail the month-year test. |
| Tokens.ShapeOf | lib/tokens.ts:112-128 | The vague branch is taken exactly when the trimmed, lower-cased text contains "early". The month-year branch is taken exactly when it does not and the text passes the month-year test. The exact-date branch is taken in every other case. |
| Tokens.BranchTimestamp | lib/tokens.ts:114-161 | Before the future guard, `NaN` arises exactly from a month-year text that `Date.parse` rejects and whose manual fallback is `NaN`. A vague text without four digits gives the one-year-ago fallback. |
| Tokens.ManualMonthYear | lib/tokens.ts:135-145 | The manual fallback is `NaN` exactly when the year part or the month part is missing. Otherwise it is `Date.UTC(year, month, 1) / 1000`: midnight UTC on the 1st of that month, with the year from `parseInt` of the second space-separated part and the month index, from 0 to 11, from the first part. |
| Tokens.ParseStartDateToTimestamp | lib/tokens.ts:110-171 | A numeric result is never after the current second. A branch result that is not in the future is returned as is; one in the future is replaced by the one-year-ago fallback. The result is `NaN` exactly when a month-year text is rejected by `Date.parse` and its manual fallback is also `NaN`. |
| Tokens.EarlyWinsOverMonthYear | lib/tokens.ts:116-128 | "Early 2025" also passes the month-year test, yet takes the vague branch and gives 2025-01-01T00:00:00Z. |
| Tokens.VagueDateResolution | lib/tokens.ts:117-126 | A vague text gives January 1 of the first four-digit year in it, or the one-year-ago fallback when it has no such year or that day is in the future. |
| Tokens.ManualMonthYearSingleSpace | lib/tokens.ts:135-145 | For a name and four digits separated by one space, the manual fallback gives midnight UTC on the first of the named month, or `NaN` for an inherited member name. |
| Tokens.ManualMonthYearDoubleSpace | lib/tokens.ts:136-138 | With two spaces before the year, the second part is empty, so `parseInt` and the fallback give `NaN`. |
| Tokens.ManualMonthYearWithoutSpace | lib/tokens.ts:136-138 | A trimmed text without a space has no second part, so the fallback is `NaN`. |
| Tokens.RejectedMonthYearGivesFirstOfMonth | lib/tokens.ts:128-151 | A month-year text rejected by `Date.parse` gives the first of its month, or the one-year-ago fallback when that day is in the future. |
| Tokens.MonthYearDateAccepted | lib/tokens.ts:128-133 | A month-year text that `Date.parse` reads once " 1" is appended gives that day at midnight, unless the day is in the future. |
| Tokens.DecemberManualExample | lib/tokens.ts:128-171 | "December 2024" rejected by `Date.parse` still gives 2024-12-01T00:00:00Z. |
| Tokens.ExactDateAccepted | lib/tokens.ts:152-168 | A text of the exact-date shape that `Date.parse` reads gives that day at midnight, unless the day is in the future. |
| Tokens.ExactDateRejected | lib/tokens.ts:152-161 | A text of the exact-date shape that `Date.parse` rejects gives the one-year-ago fallback. |
| Tokens.ExactDateExample | lib/tokens.ts:152-168 | "March 21, 2025", read as that day, gives 2025-03-21T00:00:00Z once that day has come. |
| Tokens.DayBucket | lib/tokens.ts:187-199 | The result is one of 1, 7, 14, 30, 90, 180, 365. A non-positive count gives 30. Counts from 1 to 365 give the smallest bucket holding them. Larger counts give 365. |
| Tokens.CeilDays | lib/tokens.ts:185 | The result is the ceiling of the seconds divided by 86400. |
| Tokens.GetDaysFromStartDate | lib/tokens.ts:182-200 | The result is always a supported bucket. A `NaN` launch instant gives 365. For a numeric instant, with `x` the seconds from it to the counting second: 30 when `x` is not positive, 365 when `x` exceeds 365 days, and otherwise the smallest bucket whose days cover `x`. |
| Tokens.DaysSince | lib/tokens.ts:184-199 | The result is always a supported bucket. A `NaN` instant gives 365, because it fails every comparison. For a numeric instant, with `x` the elapsed seconds: 30 when `x` is not positive, 365 when `x` exceeds 365 days, and otherwise the smallest bucket whose days cover `x`. |
| Tokens.FallbackCountsAsAYear | lib/tokens.ts:182-199 | A launch resolved to the one-year-ago fallback counts as 365 days, provided the clock has not gone back between the two readings. |
| Tokens.LaunchNowCountsAsDefault | lib/tokens.ts:185-188 | A launch at the current second gives the default 30. |
| Tokens.DayCountBoundaries | lib/tokens.ts:185-193 | One second after launch counts as 1 day, and so does one full day. One second more gives 7. |
| Text.Trim | lib/rate-limit.ts:13 | The result is a contiguous slice that neither starts nor ends with whitespace. Everything cut away on either side is whitespace. |
| Text.FirstField | lib/tokens.ts:136-137 | The first element of a `split` is the longest prefix without the separator. |
| Text.SecondField | lib/tokens.ts:136-138 | The second element of a `split` is absent (`undefined`) exactly when the separator does not occur. Otherwise it is the text after the first separator, up to the next one. |
| Text.ReplaceWhitespaceRuns | app/api/tokens/stats/route.ts:41 | The result holds no whitespace. A text without whitespace is unchanged. |
| Text.ReplaceWhitespaceRun | app/api/tokens/stats/route.ts:41 | Each maximal whitespace run becomes one replacement. The texts before and after the run are replaced independently. |
| Text.NatToStringRoundTrip | lib/cache.ts:47 | Reading the decimal rendering of a number gives the number back. |
| Calendar.EpochIsDayZero | lib/tokens.ts:121 | `Date.UTC(1970, 0, 1)` is 0. |
| Calendar.DateUtcIsMidnight | lib/tokens.ts:145 | Every instant `Date.UTC` gives for a date is a midnight UTC. |
| Calendar.MonthLengths | lib/tokens.ts:145 | The first of each month follows the first of the previous month by that month's length, including leap Februaries and the December-to-January step. |
| Calendar.DateOverflowsIntoNextMonth | lib/tokens.ts:145 | A day one past the end of a month is the first of the next month. |
| Calendar.TwoDigitYears | lib/tokens.ts:121 | Years 0 to 99 are read as 1900 to 1999. |
| Stats.CacheKey | app/api/tokens/stats/route.ts:40-42 | A non-empty filter has the key `tokens_stats_category_` followed by the lower-cased filter with each whitespace run replaced by `_`; every other request has `tokens_stats_all`, which no filtered key equals. No key holds whitespace. |
| Stats.CacheKeyExample | app/api/tokens/stats/route.ts:40-42 | The filter `AI  Agents`, with two spaces, has the key `tokens_stats_category_ai_agents`. |
| Stats.FilteredKeysAgree | app/api/tokens/stats/route.ts:40-42 | Two non-empty filters share a key exactly when their lower-cased texts agree once each whitespace run is replaced by `_`. |
| Stats.AgentsKey | app/api/tokens/stats/route.ts:40-42 | `AI Agents` and `AI  Agents` (one or two spaces) both have the key `tokens_stats_category_ai_agents`. |
| Stats.SpacingSharesKeyNotSelection | app/api/tokens/stats/route.ts:40-55 | The key collapses whitespace runs but the selection compares the lower-cased filter unchanged: `AI Agents` and `AI  Agents` share a key, yet a token of category `AI Agents` is selected by the first filter and not by the second. |
| Stats.CacheKeyIgnoresCase | app/api/tokens/stats/route.ts:40-42 | Filters equal up to ASCII case share a key. |
| Stats.Selected | app/api/tokens/stats/route.ts:53-55 | Without a non-empty filter the whole table is processed. With one, exactly the tokens whose lower-cased category equals the lower-cased filter. |
| Stats.InCategoryAppend | app/api/tokens/stats/route.ts:53-55 | The filter keeps table order: filtering a concatenation concatenates the filtered parts. |
| Stats.CategoryLabel | app/api/tokens/stats/route.ts:71 | An empty category becomes `Uncategorized`. Any other is kept as is. |
| Stats.FetchRecord | app/api/tokens/stats/route.ts:58-92 | The record carries the token's ticker, name and labelled category. It succeeds exactly when the upstream call for the token's id answered. A success has no error and takes each figure from the quote, with 0 for a missing one. A failure has zero figures and the thrown message, or `Unknown error`. |
| Stats.FetchAll | app/api/tokens/stats/route.ts:58-95 | One record per processed token, in order. |
| Stats.TotalsCountEveryRecord | app/api/tokens/stats/route.ts:98-109 | Successes plus failures equal the number of records. |
| Stats.FailedRecordsAddNothing | app/api/tokens/stats/route.ts:98-109 | Records that all failed give zero sums, no success and one failure each. |
| Stats.ComputeTotals | app/api/tokens/stats/route.ts:98-109 | The loop computes the totals `reduce` over the records. |
| Stats.Categories | app/api/tokens/stats/route.ts:112-124 | The keys of the grouping object are exactly the labels that occur, in order of first appearance. |
| Stats.CategoriesAreDistinct | app/api/tokens/stats/route.ts:114-124 | Each category appears once. |
| Stats.CategoriesStep | app/api/tokens/stats/route.ts:114-124 | One record more appends its category to the keys exactly when no earlier record has that category. |
| Stats.CategoriesPrefix | app/api/tokens/stats/route.ts:114-124 | The keys of a prefix of the records are a prefix of the keys, so keys appear in order of first appearance. |
| Stats.GroupOfIsConsistent | app/api/tokens/stats/route.ts:125-140 | In each group, successes plus failures equal the token count, which equals the length of its token list. The group is named by its category. |
| Stats.AbsentCategoryIsEmpty | app/api/tokens/stats/route.ts:112-142 | A category that does not occur has an empty group. |
| Stats.GroupByCategory | app/api/tokens/stats/route.ts:112-145 | The loop over a keyed accumulator with its key order computes the groups in first-appearance order. |
| Stats.GroupsCountEveryRecord | app/api/tokens/stats/route.ts:112-145 | Every record lands in exactly one group: the group counts sum to the number of records. |
| Stats.WithSortedTokens | app/api/tokens/stats/route.ts:146-149 | A group's token list is sorted by market cap, largest first. It stays a permutation and nothing else in the group changes. |
| Stats.Average | app/api/tokens/stats/route.ts:160-165 | The average is 0 without a success. Otherwise it times the count equals the total. |
| Stats.StatsOf | app/api/tokens/stats/route.ts:152-178 | The response succeeds and counts every processed token. Its raw token list follows the processed tokens one to one, in order, with ticker, name and labelled category. |
| Stats.BuildStats | app/api/tokens/stats/route.ts:95-178 | The fetches, the two reduce loops, the sorts and the final mapping compute the response `StatsOf` defines. |
| Stats.SummaryInvariants | app/api/tokens/stats/route.ts:152-166 | The summary counts every processed token once, as a success or a failure. Its averages are 0 without a success. |
| Stats.CategoryInvariants | app/api/tokens/stats/route.ts:112-150 | Category counts sum to the number of processed tokens. Categories are sorted by total market cap, each one consistent and with its tokens sorted by market cap. |
| Stats.AllFailuresGiveZeroSummary | app/api/tokens/stats/route.ts:78-166 | When every upstream call fails, all tokens are failed, with zero totals and zero averages. |
| Sorting.SortDesc | app/api/tokens/stats/route.ts:145-150 | The sort result is a permutation of its input in non-increasing order of the key. |
| Sorting.SortIsStable | app/api/tokens/stats/route.ts:148-150 | Elements of equal key keep their relative order, as `Array.prototype.sort` must. |
| Routes.Handle | app/api/tokens/stats/route.ts:29-181 | The limiter's records end as `Admit` leaves them. Every reply carries the TTL's `Cache-Control` header. The status is 429 exactly when the limiter rejects, and 200 otherwise. A 429 has no `X-Cache`. A HIT serves the stored text of the key and never follows a forced refresh. A MISS serves the computed value. |
| Routes.RejectedRequestLeavesCache | app/api/tokens/stats/route.ts:31-34 | A rate-limited request answers 429 with no `X-Cache` and leaves the cache as it was. |
| Routes.FreshEntryIsServed | app/api/tokens/stats/route.ts:45-50 | Without a forced refresh, a fresh entry is served as a HIT with the stored text, and the cache is not written. |
| Routes.RefreshRecomputes | app/api/tokens/stats/route.ts:37-181 | `refresh=true` skips the read. The response is computed and stored, stamped with the write instant, as a MISS. |
| Routes.MissStoresResponse | app/api/tokens/stats/route.ts:44-181 | An admitted request without a fresh entry is a MISS. It stores the computed response under its key, replacing any stale entry and keeping every other one. |
| Routes.OtherKeysUntouched | app/api/tokens/stats/route.ts:44-180 | Only the request's own cache key can change. |
| Routes.MissThenHit | app/api/tokens/stats/route.ts:44-180 | A MISS followed, within the TTL and without a refresh, by an admitted request on the same key is a HIT returning the stored serialization. |
| Routes.RouteHeaders | app/api/tokens/stats/route.ts:15-27 | The stats route sends `s-maxage=300, stale-while-revalidate=150`. The list route sends `s-maxage=86400, stale-while-revalidate=43200`. |
| Routes.MissReplyIsStored | app/api/tokens/stats/route.ts:180-181 | On a MISS the reply is the computed value and its serialization is stored under the key. |
| Routes.StatsHandle | app/api/tokens/stats/route.ts:29-181 | The stats route answers 429 exactly when the limiter rejects and always sends the 5-minute header. A HIT serves the text stored under the filter's key. A MISS serves the statistics of the selected tokens. |
| Routes.StatsMissStoresSelection | app/api/tokens/stats/route.ts:40-181 | On a MISS the stats route stores, under its filter's key, the statistics of exactly the selected tokens. |
| Routes.StatsGet | app/api/tokens/stats/route.ts:29-181 | The in-place handler gives the reply and leaves the cache and limiter state that `StatsHandle` defines, keeping the limiter's invariant. |
| Routes.ListOf | app/api/tokens/route.ts:48-52 | The list response succeeds, holds the whole table, and its count is the table's length. |
| Routes.ListHandle | app/api/tokens/route.ts:28-55 | The list route answers 429 exactly when the limiter rejects and always sends the 24-hour header. A HIT serves the text stored under `tokens_list`. A MISS serves the whole table with its length. |
| Routes.ListMissStoresTable | app/api/tokens/route.ts:38-55 | On a MISS the list route replies with the whole table and stores it under `tokens_list`. |
| Routes.ListGet | app/api/tokens/route.ts:28-55 | The in-place handler gives the reply and leaves the cache and limiter state that `ListHandle` defines. |

## Left out

- The `try`/`catch` that answers 500 in both routes is not modelled. Neither is the `try`/`catch` around the month-year branch. No modelled operation throws.
- The two `OPTIONS` handlers, the CORS headers and `Content-Type` are not modelled. A reply keeps its status, `Cache-Control`, the `X-Cache` value as `Hit`/`Miss`, and its body.
- JSON is not modelled:
  - The cache stores `encode(response)`.
  - A hit returns the stored text.
  - The `JSON.parse` attempt on a hit, its fallback to the raw string, and the truthiness test of the parsed value are not modelled.
  - A hit is served whenever an entry is present and fresh.
- The health route, the UI, the remaining API routes and lib/coingecko.ts are not part of this model. The upstream fetch is the parameter `upstream`, which gives a quote or a thrown error for an upstream id.
- Concurrency:
  - The `Promise.all` fetches are modelled one after another. Their results are independent of order.
  - Interleaving of concurrent requests on the shared maps is not modelled. Each handler call runs to completion.
- Each edge region has its own cache and limiter. The model is one process.
- JavaScript numbers are not modelled as IEEE doubles:
  - Market figures are `real`, so sums, averages and sort keys are exact.
  - Time is integer milliseconds.
  - `Date.UTC(...)/1000` is exact.
  - `TimeClip` (the ±8.64e15 ms range) is not modelled.
- `Date.parse` is the parameter `parse`. It gives the calendar date it reads, taken as midnight UTC, or none for `NaN`. The host's local time zone, which applies to texts without a zone, and any time of day are not modelled.
- Text:
  - `toLowerCase`/`toUpperCase` change only ASCII letters.
  - `parseInt` reads leading whitespace, one sign and decimal digits. It does not read a `0x` prefix.
  - Whitespace for `trim` and `\s` is the JavaScript set of single UTF-16 code units.
- Object key order:
  - `Object.values(byCategory)` is modelled as insertion order. JavaScript lists integer-like keys first, but the category labels of the table are not integer-like.
  - Category labels that name inherited members of `Object.prototype` are not modelled for the grouping object. None occurs in the table.
- The sorts are modelled on values (`seq`) as a stable insertion sort. This is the order the standard requires of `Array.prototype.sort` for this comparator. In-place mutation of the group token arrays is not modelled.
- Stats.Selected: for a filter, the contract states which tokens are kept. `Stats.InCategoryAppend` states that table order is preserved. The empty category of a token is compared as the empty string, where the source's optional chaining would compare `undefined`; no token in the table lacks a category.
- Routes.Handle: its contract states the records, the header, the status, and what each kind of reply serves. The new cache contents are stated by the lemmas below it in the table.
- Tokens.GetDaysFromStartDate: the two clock readings are separate parameters, one for resolving the launch instant and one for counting.
- There is no stale-data fallback when an upstream call fails. Such a token becomes a zero-valued failed record, as in the code.

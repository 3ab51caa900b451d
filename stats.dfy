/** The aggregation of the token statistics route
    (app/api/tokens/stats/route.ts): which tokens are processed, the cache key,
    one record per token from its upstream result, the overall totals, the
    per-category groups, the two sorts and the averages. Market figures are
    `real`; the upstream call is the parameter `upstream`, which gives what the
    `/coins/{id}` request made of an upstream id. */
module Stats {
  import opened Wrappers
  import opened Text
  import opened Sorting
  import Tokens

  // ---------------------------------------------------------------------
  // Selection and cache key

  /** A category filter counts only when present and non-empty (a falsy
      query parameter is treated as absent). */
  predicate HasFilter(filter: Option<string>) {
    filter.Some? && filter.value != []
  }

  const StatsKeyPrefix: string := "tokens_stats_category_"
  const AllStatsKey: string := "tokens_stats_all"

  /** The cache key of a request: one per category filter, lower-cased and
      with every whitespace run replaced by an underscore. A filtered key
      never coincides with the key of the unfiltered statistics. */
  function CacheKey(filter: Option<string>): (key: string)
    ensures NoWhitespace(key)
    ensures HasFilter(filter) <==> key != AllStatsKey
    ensures HasFilter(filter) ==> StatsKeyPrefix <= key
    ensures HasFilter(filter) ==> key == StatsKeyPrefix + ReplaceWhitespaceRuns(Lower(filter.value), "_")
  {
    if HasFilter(filter) then
      var key := StatsKeyPrefix + ReplaceWhitespaceRuns(Lower(filter.value), "_");
      assert NoWhitespace("_");
      FilteredKey(ReplaceWhitespaceRuns(Lower(filter.value), "_"));
      key
    else
      assert NoWhitespace(AllStatsKey);
      AllStatsKey
  }

  lemma FilteredKey(t: string)
    requires NoWhitespace(t)
    ensures NoWhitespace(StatsKeyPrefix + t)
    ensures StatsKeyPrefix + t != AllStatsKey
    ensures StatsKeyPrefix <= StatsKeyPrefix + t
  {
    assert NoWhitespace(StatsKeyPrefix);
    NoWhitespaceConcat(StatsKeyPrefix, t);
    assert (StatsKeyPrefix + t)[13] == 'c' && AllStatsKey[13] == 'a';
  }

  /** A filter with a double space: the run becomes one underscore and the
      letters are lower-cased. */
  lemma CacheKeyExample()
    ensures CacheKey(Some("AI  Agents")) == StatsKeyPrefix + "ai_agents"
  {
    assert "AI  Agents" == "AI" + "  " + "Agents";
    AgentsKey("  ");
  }

  // Proof helper: the joined literal.
  lemma JoinExample()
    ensures "ai" + "_" + "agents" == "ai_agents"
  {
  }

  /** Filters that differ only in the length of the gap between "AI" and
      "Agents" share one key. */
  lemma AgentsKey(gap: string)
    requires gap == " " || gap == "  "
    ensures CacheKey(Some("AI" + gap + "Agents")) == StatsKeyPrefix + "ai_agents"
  {
    assert Lower("AI" + gap + "Agents") == "ai" + gap + "agents" by { AgentsLowered(gap); }
    assert ReplaceWhitespaceRuns("ai" + gap + "agents", "_") == "ai_agents" by { AgentsReplaced(gap); }
  }

  // Proof helper: the lower-cased literal.
  lemma AgentsLowered(gap: string)
    requires gap == " " || gap == "  "
    ensures Lower("AI" + gap + "Agents") == "ai" + gap + "agents"
  {
    if gap == " " { } else { }
  }

  // Proof helper: the gap, of either length, becomes one underscore.
  lemma AgentsReplaced(gap: string)
    requires gap == " " || gap == "  "
    ensures ReplaceWhitespaceRuns("ai" + gap + "agents", "_") == "ai_agents"
  {
    assert NoWhitespace("ai") && NoWhitespace("agents") && NoWhitespace("_");
    ReplaceWhitespaceRun("ai", gap, "agents", "_");
    assert ReplaceWhitespaceRuns("ai", "_") == "ai";
    assert ReplaceWhitespaceRuns("agents", "_") == "agents";
    JoinExample();
  }

  /** The key collapses whitespace runs but the selection compares the
      lower-cased filter as it stands, so "AI Agents" and "AI  Agents" share a
      key while a token of category "AI Agents" is selected by the first
      alone: within the ttl, either request can be answered with the reply
      computed for the other. */
  lemma SpacingSharesKeyNotSelection(t: Tokens.TokenInfo)
    requires t.category == "AI" + " " + "Agents"
    ensures CacheKey(Some("AI" + " " + "Agents")) == CacheKey(Some("AI" + "  " + "Agents"))
    ensures Selected([t], Some("AI" + " " + "Agents")) == [t]
    ensures Selected([t], Some("AI" + "  " + "Agents")) == []
  {
    AgentsKey(" ");
    AgentsKey("  ");
    assert |Lower("AI" + "  " + "Agents")| != |Lower(t.category)|;
    assert InCategory([t][1..], "AI" + "  " + "Agents") == [];
    assert InCategory([t][1..], "AI" + " " + "Agents") == [];
  }

  /** Two filters share a key exactly when their lower-cased texts agree once
      each whitespace run is replaced by an underscore. */
  lemma FilteredKeysAgree(a: string, b: string)
    requires a != [] && b != []
    ensures CacheKey(Some(a)) == CacheKey(Some(b))
            <==> ReplaceWhitespaceRuns(Lower(a), "_") == ReplaceWhitespaceRuns(Lower(b), "_")
  {
    var x, y := ReplaceWhitespaceRuns(Lower(a), "_"), ReplaceWhitespaceRuns(Lower(b), "_");
    if CacheKey(Some(a)) == CacheKey(Some(b)) {
      assert x == (StatsKeyPrefix + x)[|StatsKeyPrefix|..];
      assert y == (StatsKeyPrefix + y)[|StatsKeyPrefix|..];
    }
  }

  /** Filters that differ only in the case of ASCII letters share a key. */
  lemma CacheKeyIgnoresCase(a: string, b: string)
    requires Upper(a) == Upper(b)
    ensures CacheKey(Some(a)) == CacheKey(Some(b))
  {
    SameUpperSameLower(a, b);
  }

  /** The tokens whose category equals `category` once both are lower-cased,
      in table order. */
  function InCategory(tokens: seq<Tokens.TokenInfo>, category: string): (r: seq<Tokens.TokenInfo>)
    ensures |r| <= |tokens|
    decreases |tokens|
  {
    if tokens == [] then []
    else (if Lower(tokens[0].category) == Lower(category) then [tokens[0]] else [])
         + InCategory(tokens[1..], category)
  }

  /** Exactly the tokens of the category are selected. */
  lemma {:induction false} InCategoryMembers(tokens: seq<Tokens.TokenInfo>, category: string)
    ensures forall t :: t in InCategory(tokens, category) <==> t in tokens && Lower(t.category) == Lower(category)
    decreases |tokens|
  {
    if tokens != [] {
      InCategoryMembers(tokens[1..], category);
      assert tokens == [tokens[0]] + tokens[1..];
    }
  }

  /** Selection keeps the table order: selecting from a concatenation is
      concatenating the selections. */
  lemma {:induction false} InCategoryAppend(a: seq<Tokens.TokenInfo>, b: seq<Tokens.TokenInfo>, category: string)
    ensures InCategory(a + b, category) == InCategory(a, category) + InCategory(b, category)
    decreases |a|
  {
    if a == [] {
      assert a + b == b;
    } else {
      var head := if Lower(a[0].category) == Lower(category) then [a[0]] else [];
      assert (a + b)[0] == a[0] && (a + b)[1..] == a[1..] + b;
      InCategoryAppend(a[1..], b, category);
      calc {
        InCategory(a + b, category);
        head + InCategory(a[1..] + b, category);
        head + (InCategory(a[1..], category) + InCategory(b, category));
        (head + InCategory(a[1..], category)) + InCategory(b, category);
      }
    }
  }

  /** The tokens a request processes: the whole table without a filter. */
  function Selected(tokens: seq<Tokens.TokenInfo>, filter: Option<string>): (r: seq<Tokens.TokenInfo>)
    ensures !HasFilter(filter) ==> r == tokens
    ensures HasFilter(filter) ==> forall t :: t in r <==> t in tokens && Lower(t.category) == Lower(filter.value)
  {
    if HasFilter(filter) then
      InCategoryMembers(tokens, filter.value);
      InCategory(tokens, filter.value)
    else tokens
  }

  // ---------------------------------------------------------------------
  // Per-token records

  /** The market figures of a successful upstream answer; `None` where the
      field is missing or falsy, which `|| 0` turns into 0. */
  datatype Quote = Quote(marketCap: Option<real>, totalVolume: Option<real>,
                         currentPrice: Option<real>, priceChange24h: Option<real>)

  /** What the upstream call made of one upstream id: an answer, or a thrown
      error with its message (`None` when the thrown value is not an `Error`). */
  datatype Upstream = Fetched(quote: Quote) | Failed(message: Option<string>)

  datatype TokenRecord = TokenRecord(ticker: string, name: string, category: string,
                                     marketCap: real, totalVolume24h: real, currentPrice: real,
                                     priceChange24h: real, success: bool, error: Option<string>)

  const Uncategorized: string := "Uncategorized"

  /** `category || 'Uncategorized'`. */
  function CategoryLabel(category: string): (shown: string)
    ensures shown != []
    ensures category != [] ==> shown == category
    ensures category == [] ==> shown == Uncategorized
  {
    if category == [] then Uncategorized else category
  }

  /** `x || 0`. */
  function OrZero(x: Option<real>): (v: real)
    ensures x.Some? ==> v == x.value
    ensures x.None? ==> v == 0.0
  {
    match x
    case Some(v) => v
    case None => 0.0
  }

  /** The record of one token: its figures when the upstream call answered;
      zeros, failure and the error message when it threw. */
  function FetchRecord(t: Tokens.TokenInfo, upstream: string -> Upstream): (r: TokenRecord)
    ensures r.ticker == t.ticker && r.name == t.name && r.category == CategoryLabel(t.category)
    ensures r.success <==> upstream(Tokens.CoinIdFromTicker(t.ticker)).Fetched?
    ensures r.success ==> r.error.None?
    ensures !r.success ==> r.marketCap == 0.0 && r.totalVolume24h == 0.0 && r.currentPrice == 0.0
                           && r.priceChange24h == 0.0 && r.error.Some?
    ensures var u := upstream(Tokens.CoinIdFromTicker(t.ticker));
            u.Fetched? ==> r.marketCap == OrZero(u.quote.marketCap) && r.totalVolume24h == OrZero(u.quote.totalVolume)
                           && r.currentPrice == OrZero(u.quote.currentPrice)
                           && r.priceChange24h == OrZero(u.quote.priceChange24h)
    ensures var u := upstream(Tokens.CoinIdFromTicker(t.ticker));
            u.Failed? ==> r.error == Some(u.message.GetOr("Unknown error"))
  {
    match upstream(Tokens.CoinIdFromTicker(t.ticker))
    case Fetched(q) =>
      TokenRecord(t.ticker, t.name, CategoryLabel(t.category), OrZero(q.marketCap), OrZero(q.totalVolume),
                  OrZero(q.currentPrice), OrZero(q.priceChange24h), true, None)
    case Failed(message) =>
      TokenRecord(t.ticker, t.name, CategoryLabel(t.category), 0.0, 0.0, 0.0, 0.0, false,
                  Some(message.GetOr("Unknown error")))
  }

  /** One record per processed token, in the same order. */
  function FetchAll(tokens: seq<Tokens.TokenInfo>, upstream: string -> Upstream): (rs: seq<TokenRecord>)
    ensures |rs| == |tokens|
    ensures forall i :: 0 <= i < |tokens| ==> rs[i] == FetchRecord(tokens[i], upstream)
  {
    seq(|tokens|, i requires 0 <= i < |tokens| => FetchRecord(tokens[i], upstream))
  }

  // ---------------------------------------------------------------------
  // Totals

  datatype Totals = Totals(totalMarketCap: real, totalVolume24h: real, successfulTokens: nat, failedTokens: nat)

  /** One step of the totals `reduce`. */
  function AddToTotals(t: Totals, r: TokenRecord): Totals {
    Totals(t.totalMarketCap + r.marketCap, t.totalVolume24h + r.totalVolume24h,
           t.successfulTokens + (if r.success then 1 else 0),
           t.failedTokens + (if r.success then 0 else 1))
  }

  /** The totals `reduce` over `rs`, from all-zero totals. */
  function TotalsOf(rs: seq<TokenRecord>): Totals
    decreases |rs|
  {
    if rs == [] then Totals(0.0, 0.0, 0, 0) else AddToTotals(TotalsOf(rs[..|rs| - 1]), rs[|rs| - 1])
  }

  /** Every record is counted once, as a success or as a failure. */
  lemma {:induction false} TotalsCountEveryRecord(rs: seq<TokenRecord>)
    ensures TotalsOf(rs).successfulTokens + TotalsOf(rs).failedTokens == |rs|
    decreases |rs|
  {
    if rs != [] {
      TotalsCountEveryRecord(rs[..|rs| - 1]);
    }
  }

  /** Records that all failed add up to nothing. */
  lemma {:induction false} FailedRecordsAddNothing(rs: seq<TokenRecord>)
    requires forall i :: 0 <= i < |rs| ==> !rs[i].success && rs[i].marketCap == 0.0 && rs[i].totalVolume24h == 0.0
    ensures TotalsOf(rs) == Totals(0.0, 0.0, 0, |rs|)
    decreases |rs|
  {
    if rs != [] {
      FailedRecordsAddNothing(rs[..|rs| - 1]);
    }
  }

  /** The totals `reduce`, as the loop it performs. */
  method ComputeTotals(rs: seq<TokenRecord>) returns (t: Totals)
    ensures t == TotalsOf(rs)
  {
    t := Totals(0.0, 0.0, 0, 0);
    var i := 0;
    while i < |rs|
      invariant 0 <= i <= |rs|
      invariant t == TotalsOf(rs[..i])
    {
      assert rs[..i + 1][..i] == rs[..i];
      t := AddToTotals(t, rs[i]);
      i := i + 1;
    }
    assert rs[..|rs|] == rs;
  }

  // ---------------------------------------------------------------------
  // Per-category groups

  datatype GroupEntry = GroupEntry(ticker: string, name: string, marketCap: real, volume24h: real,
                                   price: real, priceChange24h: real)

  datatype CategoryGroup = CategoryGroup(category: string, tokenCount: nat, totalMarketCap: real,
                                         totalVolume24h: real, successfulTokens: nat, failedTokens: nat,
                                         tokens: seq<GroupEntry>)

  function EntryOf(r: TokenRecord): GroupEntry {
    GroupEntry(r.ticker, r.name, r.marketCap, r.totalVolume24h, r.currentPrice, r.priceChange24h)
  }

  function NewGroup(category: string): CategoryGroup {
    CategoryGroup(category, 0, 0.0, 0.0, 0, 0, [])
  }

  /** One step of the grouping `reduce` on the group of the record's category. */
  function AddToGroup(g: CategoryGroup, r: TokenRecord): CategoryGroup {
    g.(tokenCount := g.tokenCount + 1,
       totalMarketCap := g.totalMarketCap + r.marketCap,
       totalVolume24h := g.totalVolume24h + r.totalVolume24h,
       successfulTokens := g.successfulTokens + (if r.success then 1 else 0),
       failedTokens := g.failedTokens + (if r.success then 0 else 1),
       tokens := g.tokens + [EntryOf(r)])
  }

  /** The categories of `rs` in order of first appearance, which is the
      order in which the grouping object acquires its keys. */
  function Categories(rs: seq<TokenRecord>): (cs: seq<string>)
    ensures forall c :: c in cs <==> exists i :: 0 <= i < |rs| && CategoryLabel(rs[i].category) == c
    decreases |rs|
  {
    if rs == [] then []
    else
      var p := rs[..|rs| - 1];
      var c := CategoryLabel(rs[|rs| - 1].category);
      assert forall i :: 0 <= i < |p| ==> p[i] == rs[i];
      Categories(p) + (if c in Categories(p) then [] else [c])
  }

  /** A category appears once. */
  lemma {:induction false} CategoriesAreDistinct(rs: seq<TokenRecord>)
    ensures forall i, j :: 0 <= i < j < |Categories(rs)| ==> Categories(rs)[i] != Categories(rs)[j]
    decreases |rs|
  {
    if rs != [] {
      CategoriesAreDistinct(rs[..|rs| - 1]);
    }
  }

  /** One more record adds its category at the end exactly when no earlier
      record has it: keys appear in order of first appearance. */
  lemma CategoriesStep(rs: seq<TokenRecord>, i: nat)
    requires i < |rs|
    ensures var c := CategoryLabel(rs[i].category);
            Categories(rs[..i + 1])
              == Categories(rs[..i]) + (if exists j :: 0 <= j < i && CategoryLabel(rs[j].category) == c then [] else [c])
  {
    var p := rs[..i + 1];
    assert p[..|p| - 1] == rs[..i];
    assert forall j :: 0 <= j < i ==> rs[..i][j] == rs[j];
  }

  /** The keys of a prefix of the records come first, in the same order. */
  lemma {:induction false} CategoriesPrefix(rs: seq<TokenRecord>, k: nat)
    requires k <= |rs|
    ensures Categories(rs[..k]) <= Categories(rs)
    decreases |rs| - k
  {
    if k == |rs| {
      assert rs[..k] == rs;
    } else {
      CategoriesPrefix(rs, k + 1);
      CategoriesStep(rs, k);
    }
  }

  /** The group the `reduce` builds for `category` over `rs`. */
  function GroupOf(rs: seq<TokenRecord>, category: string): CategoryGroup
    decreases |rs|
  {
    if rs == [] then NewGroup(category)
    else
      var g := GroupOf(rs[..|rs| - 1], category);
      if CategoryLabel(rs[|rs| - 1].category) == category then AddToGroup(g, rs[|rs| - 1]) else g
  }

  /** A group's counts agree with each other and with its token list. */
  predicate Consistent(g: CategoryGroup) {
    g.successfulTokens + g.failedTokens == g.tokenCount && g.tokenCount == |g.tokens|
  }

  lemma {:induction false} GroupOfIsConsistent(rs: seq<TokenRecord>, category: string)
    ensures Consistent(GroupOf(rs, category))
    ensures GroupOf(rs, category).category == category
    decreases |rs|
  {
    if rs != [] {
      GroupOfIsConsistent(rs[..|rs| - 1], category);
    }
  }

  /** A category that does not occur has an empty group. */
  lemma {:induction false} AbsentCategoryIsEmpty(rs: seq<TokenRecord>, category: string)
    requires category !in Categories(rs)
    ensures GroupOf(rs, category) == NewGroup(category)
    decreases |rs|
  {
    if rs != [] {
      var p := rs[..|rs| - 1];
      assert forall i :: 0 <= i < |p| ==> p[i] == rs[i];
      assert category !in Categories(p);
      AbsentCategoryIsEmpty(p, category);
    }
  }

  /** The groups in order of first appearance (`Object.values`). */
  function Groups(rs: seq<TokenRecord>): (gs: seq<CategoryGroup>)
    ensures |gs| == |Categories(rs)|
  {
    seq(|Categories(rs)|, i requires 0 <= i < |Categories(rs)| => GroupOf(rs, Categories(rs)[i]))
  }

  /** The grouping `reduce`, as the loop it performs over a keyed accumulator
      and the order in which its keys were added. */
  method GroupByCategory(rs: seq<TokenRecord>) returns (groups: seq<CategoryGroup>)
    ensures groups == Groups(rs)
  {
    var acc: map<string, CategoryGroup> := map[];
    var order: seq<string> := [];
    var i := 0;
    while i < |rs|
      invariant 0 <= i <= |rs|
      invariant order == Categories(rs[..i])
      invariant forall c :: c in acc <==> c in order
      invariant forall c :: c in acc ==> acc[c] == GroupOf(rs[..i], c)
    {
      GroupStep(rs, i, acc);
      var c := CategoryLabel(rs[i].category);
      if c !in acc {
        order := order + [c];
      }
      acc := NextAcc(acc, rs[i]);
      i := i + 1;
    }
    assert rs[..|rs|] == rs;
    groups := seq(|order|, k requires 0 <= k < |order| => acc[order[k]]);
  }

  /** The accumulator after folding `r` into it. */
  function NextAcc(acc: map<string, CategoryGroup>, r: TokenRecord): map<string, CategoryGroup> {
    var c := CategoryLabel(r.category);
    acc[c := AddToGroup(if c in acc then acc[c] else NewGroup(c), r)]
  }

  /** One pass of the grouping loop: the accumulator for `rs[..i]` becomes the
      one for `rs[..i + 1]`, the new category (if any) joining the key order. */
  lemma GroupStep(rs: seq<TokenRecord>, i: nat, acc: map<string, CategoryGroup>)
    requires i < |rs|
    requires forall c :: c in acc <==> c in Categories(rs[..i])
    requires forall c :: c in acc ==> acc[c] == GroupOf(rs[..i], c)
    ensures var c := CategoryLabel(rs[i].category);
            && Categories(rs[..i + 1]) == Categories(rs[..i]) + (if c in acc then [] else [c])
            && (forall k :: k in NextAcc(acc, rs[i]) <==> k in Categories(rs[..i + 1]))
            && (forall k :: k in NextAcc(acc, rs[i]) ==> NextAcc(acc, rs[i])[k] == GroupOf(rs[..i + 1], k))
  {
    var p, r := rs[..i], rs[i];
    var c := CategoryLabel(r.category);
    assert rs[..i + 1] == p + [r];
    assert (p + [r])[..|p + [r]| - 1] == p;
    if c !in acc {
      AbsentCategoryIsEmpty(p, c);
    }
  }

  /** The sum of the token counts of `gs`. */
  function CountSum(gs: seq<CategoryGroup>): nat
    decreases |gs|
  {
    if gs == [] then 0 else gs[0].tokenCount + CountSum(gs[1..])
  }

  /** The sum of the token counts of the groups over `rs` of the categories `cs`. */
  function CountOver(rs: seq<TokenRecord>, cs: seq<string>): nat
    decreases |cs|
  {
    if cs == [] then 0 else GroupOf(rs, cs[0]).tokenCount + CountOver(rs, cs[1..])
  }

  lemma {:induction false} CountOverGroups(rs: seq<TokenRecord>, cs: seq<string>, gs: seq<CategoryGroup>)
    requires |gs| == |cs| && forall i :: 0 <= i < |cs| ==> gs[i] == GroupOf(rs, cs[i])
    ensures CountSum(gs) == CountOver(rs, cs)
    decreases |cs|
  {
    if cs != [] {
      CountOverGroups(rs, cs[1..], gs[1..]);
    }
  }

  /** Appending a record of another category changes no count over `cs`. */
  lemma {:induction false} CountOverOtherRecord(p: seq<TokenRecord>, r: TokenRecord, cs: seq<string>)
    requires CategoryLabel(r.category) !in cs
    ensures CountOver(p + [r], cs) == CountOver(p, cs)
    decreases |cs|
  {
    if cs != [] {
      assert (p + [r])[..|p + [r]| - 1] == p;
      CountOverOtherRecord(p, r, cs[1..]);
    }
  }

  /** Appending a record of a category that occurs once in `cs` adds one. */
  lemma {:induction false} CountOverOwnRecord(p: seq<TokenRecord>, r: TokenRecord, cs: seq<string>)
    requires CategoryLabel(r.category) in cs
    requires forall i, j :: 0 <= i < j < |cs| ==> cs[i] != cs[j]
    ensures CountOver(p + [r], cs) == CountOver(p, cs) + 1
    decreases |cs|
  {
    assert (p + [r])[..|p + [r]| - 1] == p;
    if cs[0] == CategoryLabel(r.category) {
      assert CategoryLabel(r.category) !in cs[1..];
      CountOverOtherRecord(p, r, cs[1..]);
    } else {
      CountOverOwnRecord(p, r, cs[1..]);
    }
  }

  lemma CountOverAppend(rs: seq<TokenRecord>, cs: seq<string>, c: string)
    ensures CountOver(rs, cs + [c]) == CountOver(rs, cs) + GroupOf(rs, c).tokenCount
    decreases |cs|
  {
    if cs != [] {
      assert (cs + [c])[1..] == cs[1..] + [c];
      CountOverAppend(rs, cs[1..], c);
    }
  }

  /** Every record lands in exactly one group: the counts add up to |rs|. */
  lemma {:induction false} GroupsCountEveryRecord(rs: seq<TokenRecord>)
    ensures CountSum(Groups(rs)) == |rs|
    decreases |rs|
  {
    CountOverGroups(rs, Categories(rs), Groups(rs));
    CountEveryRecord(rs);
  }

  lemma {:induction false} CountEveryRecord(rs: seq<TokenRecord>)
    ensures CountOver(rs, Categories(rs)) == |rs|
    decreases |rs|
  {
    if rs != [] {
      var p := rs[..|rs| - 1];
      var r := rs[|rs| - 1];
      var c := CategoryLabel(r.category);
      assert rs == p + [r];
      CountEveryRecord(p);
      CategoriesAreDistinct(p);
      if c in Categories(p) {
        assert Categories(rs) == Categories(p);
        CountOverOwnRecord(p, r, Categories(p));
      } else {
        assert Categories(rs) == Categories(p) + [c];
        CountOverOtherRecord(p, r, Categories(p));
        CountOverAppend(rs, Categories(p), c);
        AbsentCategoryIsEmpty(p, c);
      }
    }
  }

  // ---------------------------------------------------------------------
  // Sorting and the response

  function EntryMarketCap(e: GroupEntry): real { e.marketCap }
  function GroupMarketCap(g: CategoryGroup): real { g.totalMarketCap }

  /** A group with its token list sorted by market cap, largest first. */
  function WithSortedTokens(g: CategoryGroup): (h: CategoryGroup)
    ensures h == g.(tokens := h.tokens)
    ensures multiset(h.tokens) == multiset(g.tokens) && SortedDesc(h.tokens, EntryMarketCap)
  {
    g.(tokens := SortDesc(g.tokens, EntryMarketCap))
  }

  /** The categories of the response: each token list sorted, then the groups
      sorted by their total market cap, largest first. */
  function SortedGroups(gs: seq<CategoryGroup>): seq<CategoryGroup> {
    SortDesc(seq(|gs|, i requires 0 <= i < |gs| => WithSortedTokens(gs[i])), GroupMarketCap)
  }

  /** The `averageMarketCap`/`averageVolume24h` rule: per successful token,
      0 when no token succeeded. */
  function Average(total: real, count: nat): (a: real)
    ensures count == 0 ==> a == 0.0
    ensures count > 0 ==> a * (count as real) == total
  {
    if count > 0 then total / (count as real) else 0.0
  }

  datatype Summary = Summary(totalTokens: nat, successfulTokens: nat, failedTokens: nat,
                             totalMarketCap: real, totalVolume24h: real,
                             averageMarketCap: real, averageVolume24h: real)

  datatype TokenView = TokenView(ticker: string, name: string, category: string, marketCap: real,
                                 volume24h: real, price: real, priceChange24h: real)

  datatype StatsResponse = StatsResponse(success: bool, summary: Summary, byCategory: seq<CategoryGroup>,
                                         tokens: seq<TokenView>)

  function ViewOf(r: TokenRecord): TokenView {
    TokenView(r.ticker, r.name, r.category, r.marketCap, r.totalVolume24h, r.currentPrice, r.priceChange24h)
  }

  function SummaryOf(processed: nat, t: Totals): Summary {
    Summary(processed, t.successfulTokens, t.failedTokens, t.totalMarketCap, t.totalVolume24h,
            Average(t.totalMarketCap, t.successfulTokens), Average(t.totalVolume24h, t.successfulTokens))
  }

  /** The response body the route computes for the processed tokens. */
  function StatsOf(processed: seq<Tokens.TokenInfo>, upstream: string -> Upstream): (resp: StatsResponse)
    ensures resp.success && resp.summary.totalTokens == |processed|
    ensures |resp.tokens| == |processed|
    ensures forall i :: 0 <= i < |resp.tokens| ==>
              resp.tokens[i].ticker == processed[i].ticker && resp.tokens[i].name == processed[i].name
              && resp.tokens[i].category == CategoryLabel(processed[i].category)
  {
    var rs := FetchAll(processed, upstream);
    StatsResponse(true, SummaryOf(|processed|, TotalsOf(rs)), SortedGroups(Groups(rs)),
                  seq(|rs|, i requires 0 <= i < |rs| => ViewOf(rs[i])))
  }

  /** The computation of the response: the fetches (one after another), the
      two `reduce` loops, the sorts and the final mapping. */
  method BuildStats(processed: seq<Tokens.TokenInfo>, upstream: string -> Upstream) returns (resp: StatsResponse)
    ensures resp == StatsOf(processed, upstream)
  {
    var rs := FetchAll(processed, upstream);
    var totals := ComputeTotals(rs);
    var groups := GroupByCategory(rs);
    var views := seq(|rs|, i requires 0 <= i < |rs| => ViewOf(rs[i]));
    resp := StatsResponse(true, SummaryOf(|processed|, totals), SortedGroups(groups), views);
  }

  lemma {:induction false} SortedGroupsCount(gs: seq<CategoryGroup>)
    ensures CountSum(SortedGroups(gs)) == CountSum(gs)
  {
    var ws := seq(|gs|, i requires 0 <= i < |gs| => WithSortedTokens(gs[i]));
    CountSumOfMap(gs, ws);
    CountSumOfSort(ws);
  }

  lemma {:induction false} CountSumOfMap(gs: seq<CategoryGroup>, ws: seq<CategoryGroup>)
    requires |gs| == |ws| && forall i :: 0 <= i < |gs| ==> ws[i].tokenCount == gs[i].tokenCount
    ensures CountSum(ws) == CountSum(gs)
    decreases |gs|
  {
    if gs != [] {
      CountSumOfMap(gs[1..], ws[1..]);
    }
  }

  lemma {:induction false} CountSumOfInsert(g: CategoryGroup, gs: seq<CategoryGroup>)
    ensures CountSum(Insert(g, gs, GroupMarketCap)) == g.tokenCount + CountSum(gs)
    decreases |gs|
  {
    if gs != [] && GroupMarketCap(gs[0]) >= GroupMarketCap(g) {
      CountSumOfInsert(g, gs[1..]);
      assert ([gs[0]] + Insert(g, gs[1..], GroupMarketCap))[1..] == Insert(g, gs[1..], GroupMarketCap);
    } else {
      assert ([g] + gs)[1..] == gs;
    }
  }

  /** Sorting the groups keeps the sum of their counts. */
  lemma {:induction false} CountSumOfSort(gs: seq<CategoryGroup>)
    ensures CountSum(SortDesc(gs, GroupMarketCap)) == CountSum(gs)
    decreases |gs|
  {
    if gs != [] {
      var p := gs[..|gs| - 1];
      CountSumOfSort(p);
      CountSumOfInsert(gs[|gs| - 1], SortDesc(p, GroupMarketCap));
      CountSumLast(gs);
    }
  }

  lemma {:induction false} CountSumLast(gs: seq<CategoryGroup>)
    requires gs != []
    ensures CountSum(gs) == CountSum(gs[..|gs| - 1]) + gs[|gs| - 1].tokenCount
    decreases |gs|
  {
    if |gs| > 1 {
      CountSumLast(gs[1..]);
      assert gs[1..][..|gs[1..]| - 1] == gs[..|gs| - 1][1..];
    }
  }

  /** The summary counts every processed token once, as a success or as a
      failure, and its averages are 0 without a success. */
  lemma SummaryInvariants(processed: seq<Tokens.TokenInfo>, upstream: string -> Upstream)
    ensures var s := StatsOf(processed, upstream).summary;
            s.successfulTokens + s.failedTokens == s.totalTokens == |processed|
    ensures var s := StatsOf(processed, upstream).summary;
            s.successfulTokens == 0 ==> s.averageMarketCap == 0.0 && s.averageVolume24h == 0.0
  {
    TotalsCountEveryRecord(FetchAll(processed, upstream));
  }

  /** The category counts add up to the number of processed tokens, each
      category is internally consistent with its token list sorted by market
      cap, and the categories are sorted by total market cap. */
  lemma CategoryInvariants(processed: seq<Tokens.TokenInfo>, upstream: string -> Upstream)
    ensures CountSum(StatsOf(processed, upstream).byCategory) == |processed|
    ensures SortedDesc(StatsOf(processed, upstream).byCategory, GroupMarketCap)
    ensures forall g :: g in StatsOf(processed, upstream).byCategory ==>
              Consistent(g) && SortedDesc(g.tokens, EntryMarketCap)
  {
    var rs := FetchAll(processed, upstream);
    var gs := Groups(rs);
    GroupsCountEveryRecord(rs);
    SortedGroupsCount(gs);
    var ws := seq(|gs|, i requires 0 <= i < |gs| => WithSortedTokens(gs[i]));
    forall g | g in SortDesc(ws, GroupMarketCap) ensures Consistent(g) && SortedDesc(g.tokens, EntryMarketCap) {
      assert g in multiset(ws);
      var k :| 0 <= k < |ws| && ws[k] == g;
      GroupOfIsConsistent(rs, Categories(rs)[k]);
    }
  }

  /** With every upstream call failing, the response reports every token as
      failed with zero totals and zero averages. */
  lemma AllFailuresGiveZeroSummary(processed: seq<Tokens.TokenInfo>, upstream: string -> Upstream)
    requires forall t :: t in processed ==> upstream(Tokens.CoinIdFromTicker(t.ticker)).Failed?
    ensures StatsOf(processed, upstream).summary
              == Summary(|processed|, 0, |processed|, 0.0, 0.0, 0.0, 0.0)
  {
    var rs := FetchAll(processed, upstream);
    assert forall i :: 0 <= i < |rs| ==> processed[i] in processed;
    FailedRecordsAddNothing(rs);
  }
}

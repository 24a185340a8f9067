// The quotes the box detector looks at (backend/src/option_arb/structured/screener.py).
//
// Every unexpired quote the cache shows is filed under its underlying and expiry; a market with fewer
// than four of them cannot hold a box.
module BoxGroups {
  import opened BookCache
  import opened BoxSpreads
  import opened OptionEconomics
  import opened Quotes
  import opened StableSorting
  import opened Wrappers

  const LEGS_OF_A_BOX := 4

  datatype Market = Market(underlying: string, expiry: int)

  type Buckets = map<Market, seq<Quote>>

  function MarketOf(q: Quote): Market {
    Market(q.underlying, q.expiry)
  }

  function InMarket(buckets: Buckets, m: Market): seq<Quote> {
    if m in buckets then buckets[m] else []
  }

  function Filed(buckets: Buckets, q: Quote): Buckets {
    buckets[MarketOf(q) := InMarket(buckets, MarketOf(q)) + [q]]
  }

  function FiledAll(buckets: Buckets, quotes: seq<Quote>): Buckets {
    if quotes == [] then buckets else Filed(FiledAll(buckets, Front(quotes)), Last(quotes))
  }

  // Every quote is in the bucket of its market.
  predicate WellFiled(buckets: Buckets) {
    forall m, q :: m in buckets && q in buckets[m] ==> MarketOf(q) == m
  }

  predicate Holds(buckets: Buckets, q: Quote) {
    q in InMarket(buckets, MarketOf(q))
  }

  predicate SameListing(p: Quote, q: Quote) {
    p.exchange == q.exchange && p.name == q.name
  }

  predicate OneQuotePerListing(quotes: seq<Quote>) {
    forall i, j :: 0 <= i < j < |quotes| ==> !SameListing(quotes[i], quotes[j])
  }

  // No bucket holds two quotes of one listing.
  predicate ListingsDiffer(buckets: Buckets) {
    forall m :: m in buckets ==> OneQuotePerListing(buckets[m])
  }

  lemma FilingOne(buckets: Buckets, q: Quote)
    requires WellFiled(buckets)
    ensures WellFiled(Filed(buckets, q))
    ensures forall p :: Holds(Filed(buckets, q), p) <==> Holds(buckets, p) || p == q
  {}

  lemma {:induction false} FilingAll(buckets: Buckets, quotes: seq<Quote>)
    requires WellFiled(buckets)
    ensures WellFiled(FiledAll(buckets, quotes))
    ensures forall p :: Holds(FiledAll(buckets, quotes), p) <==> Holds(buckets, p) || p in quotes
  {
    if quotes != [] {
      FilingAll(buckets, Front(quotes));
      FilingOne(FiledAll(buckets, Front(quotes)), Last(quotes));
      assert forall p :: p in quotes <==> p in Front(quotes) || p == Last(quotes);
      hide Filed, WellFiled, Holds;
    }
  }

  lemma OneMoreListing(buckets: Buckets, q: Quote)
    requires WellFiled(buckets) && ListingsDiffer(buckets)
    requires forall p :: Holds(buckets, p) ==> !SameListing(p, q)
    ensures ListingsDiffer(Filed(buckets, q))
  {
    var quotes := InMarket(buckets, MarketOf(q));
    forall i | 0 <= i < |quotes|
      ensures !SameListing(quotes[i], q)
    {
      assert quotes[i] in quotes && Holds(buckets, quotes[i]);
    }
    hide SameListing;
    assert OneQuotePerListing(quotes + [q]);
    hide OneQuotePerListing;
  }

  // Quotes of one instrument, one per venue, add no second quote of a listing.
  lemma {:induction false} InstrumentKeepsListings(buckets: Buckets, quotes: seq<Quote>, name: string)
    requires WellFiled(buckets) && ListingsDiffer(buckets) && Comparable(quotes)
    requires forall q :: q in quotes ==> q.name == name
    requires forall p :: Holds(buckets, p) ==> p.name != name
    ensures ListingsDiffer(FiledAll(buckets, quotes))
  {
    if quotes != [] {
      var front, q := Front(quotes), Last(quotes);
      assert Comparable(front) && q in quotes && forall p :: p in front ==> p in quotes;
      InstrumentKeepsListings(buckets, front, name);
      FilingAll(buckets, front);
      forall p | Holds(FiledAll(buckets, front), p)
        ensures !SameListing(p, q)
      {
        if p in front {
          var i :| 0 <= i < |front| && front[i] == p;
          assert quotes[i].exchange != quotes[|quotes| - 1].exchange;
        }
      }
      hide WellFiled, Holds, ListingsDiffer, Filed, SameListing, Comparable;
      OneMoreListing(FiledAll(buckets, front), q);
    }
  }

  // A live quote of an instrument outside `todo`.
  predicate LiveOf(q: Quote, byName: map<string, seq<CachedTicker>>, now: int, todo: set<string>) {
    q.name in byName && q.name !in todo && q in LiveQuotes(byName[q.name], now)
  }

  ghost predicate Bucketed(buckets: Buckets, byName: map<string, seq<CachedTicker>>, now: int, todo: set<string>) {
    && WellFiled(buckets) && ListingsDiffer(buckets)
    && (forall q :: Holds(buckets, q) <==> LiveOf(q, byName, now, todo))
  }

  lemma NothingFiled(byName: map<string, seq<CachedTicker>>, now: int)
    ensures Bucketed(map[], byName, now, byName.Keys)
  {}

  lemma OneMoreFiled(buckets: Buckets, byName: map<string, seq<CachedTicker>>, now: int, todo: set<string>, name: string)
    requires Bucketed(buckets, byName, now, todo) && name in todo && name in byName && OneVenueEach(byName[name], name)
    ensures Bucketed(FiledAll(buckets, LiveQuotes(byName[name], now)), byName, now, todo - {name})
  {
    var quotes := LiveQuotes(byName[name], now);
    LiveQuotesAreComparable(byName[name], name, now);
    hide WellFiled, ListingsDiffer, Holds, LiveQuotes, Comparable, OneVenueEach, FiledAll;
    InstrumentKeepsListings(buckets, quotes, name);
    FilingAll(buckets, quotes);
  }

  lemma OneMoreTicker(group: seq<CachedTicker>, i: nat, now: int)
    requires i < |group|
    ensures var before, after := LiveQuotes(group[..i], now), LiveQuotes(group[..i + 1], now);
      var q := ToQuote(group[i]);
      after == if q.Some? && q.value.expiry > now then before + [q.value] else before
  {
    assert Front(group[..i + 1]) == group[..i];
    hide ToQuote;
  }

  // The groups are the markets with enough quotes outside `todo`, each with all of its quotes.
  predicate Grouped(groups: seq<Group>, buckets: Buckets, todo: set<Market>) {
    && DistinctGroups(groups)
    && (forall g :: g in groups ==>
          var m := Market(g.underlying, g.expiry);
          m in buckets && m !in todo && g.quotes == buckets[m] && |g.quotes| >= LEGS_OF_A_BOX)
    && (forall m :: m in buckets && m !in todo && |buckets[m]| >= LEGS_OF_A_BOX ==>
          Group(m.underlying, m.expiry, buckets[m]) in groups)
  }

  lemma OneMoreMarket(groups: seq<Group>, buckets: Buckets, todo: set<Market>, m: Market)
    requires Grouped(groups, buckets, todo) && m in todo && m in buckets
    ensures var g := Group(m.underlying, m.expiry, buckets[m]);
      Grouped(if |buckets[m]| >= LEGS_OF_A_BOX then groups + [g] else groups, buckets, todo - {m})
  {
    var g := Group(m.underlying, m.expiry, buckets[m]);
    forall i | 0 <= i < |groups|
      ensures groups[i].underlying != g.underlying || groups[i].expiry != g.expiry
    {
      assert groups[i] in groups;
    }
  }

  lemma NoTickers(tickers: seq<CachedTicker>, now: int)
    ensures LiveQuotes(tickers[..0], now) == []
  {}

  lemma NoGroups(buckets: Buckets)
    ensures Grouped([], buckets, buckets.Keys)
  {}

  lemma FilingNext(buckets: Buckets, quotes: seq<Quote>, q: Quote)
    ensures FiledAll(buckets, quotes + [q]) == Filed(FiledAll(buckets, quotes), q)
  {
    assert Front(quotes + [q]) == quotes;
  }

  // Files every unexpired quote and keeps the markets that could hold a box.
  method GroupQuotes(byName: map<string, seq<CachedTicker>>, now: int) returns (groups: seq<Group>, ghost buckets: Buckets)
    requires forall name :: name in byName ==> OneVenueEach(byName[name], name)
    ensures Bucketed(buckets, byName, now, {}) && Grouped(groups, buckets, {})
  {
    hide Bucketed, Grouped, OneVenueEach, LiveQuotes, ToQuote;
    var filed: Buckets := map[];
    var todo := byName.Keys;
    NothingFiled(byName, now);
    while todo != {}
      invariant todo <= byName.Keys
      invariant Bucketed(filed, byName, now, todo)
      decreases |todo|
    {
      var name :| name in todo;
      var tickers := byName[name];
      ghost var before := filed;
      NoTickers(tickers, now);
      for i := 0 to |tickers|
        invariant filed == FiledAll(before, LiveQuotes(tickers[..i], now))
      {
        OneMoreTicker(tickers, i, now);
        var q := ToQuote(tickers[i]);
        if q.None? || q.value.expiry <= now {
          continue;
        }
        FilingNext(before, LiveQuotes(tickers[..i], now), q.value);
        filed := Filed(filed, q.value);
      }
      assert tickers[..|tickers|] == tickers;
      OneMoreFiled(before, byName, now, todo, name);
      todo := todo - {name};
    }
    buckets := filed;
    groups := [];
    var markets := filed.Keys;
    NoGroups(filed);
    while markets != {}
      invariant markets <= filed.Keys
      invariant Grouped(groups, filed, markets)
      decreases |markets|
    {
      var m :| m in markets;
      OneMoreMarket(groups, filed, markets, m);
      if |filed[m]| >= LEGS_OF_A_BOX {
        groups := groups + [Group(m.underlying, m.expiry, filed[m])];
      }
      markets := markets - {m};
    }
  }

  // ---------------------------------------------------------------------------------------------
  // Boxes on what the cache shows
  // ---------------------------------------------------------------------------------------------

  // An unexpired quote of a ticker the cache shows.
  ghost predicate ShownQuote(q: Quote, tickers: map<Key, CachedTicker>, heartbeats: map<Key, TickerUpdate>, now: int,
                             ttl: int)
  {
    && (exists t :: Shown(t, tickers, heartbeats, now, ttl) && IsQuoteOf(q, t))
    && q.expiry > now
  }

  // The group holds exactly the shown quotes of its market, each listing once.
  ghost predicate ShowsMarket(g: Group, tickers: map<Key, CachedTicker>, heartbeats: map<Key, TickerUpdate>, now: int,
                              ttl: int)
  {
    && OneQuotePerListing(g.quotes)
    && (forall q :: q in g.quotes <==>
          ShownQuote(q, tickers, heartbeats, now, ttl) && MarketOf(q) == Market(g.underlying, g.expiry))
  }

  // The groups are the markets with at least four shown quotes.
  ghost predicate ShowsMarkets(groups: seq<Group>, tickers: map<Key, CachedTicker>, heartbeats: map<Key, TickerUpdate>,
                               now: int, ttl: int)
  {
    && (forall g: Group :: g in groups ==> |g.quotes| >= 4 && ShowsMarket(g, tickers, heartbeats, now, ttl))
    && (forall g: Group :: |g.quotes| >= 4 && ShowsMarket(g, tickers, heartbeats, now, ttl) ==>
          exists h: Group :: h in groups && h.underlying == g.underlying && h.expiry == g.expiry)
  }

  lemma LiveIsShown(q: Quote, byName: map<string, seq<CachedTicker>>, tickers: map<Key, CachedTicker>,
                    heartbeats: map<Key, TickerUpdate>, now: int, ttl: int)
    requires Shows(byName, tickers, heartbeats, now, ttl)
    ensures LiveOf(q, byName, now, {}) <==> ShownQuote(q, tickers, heartbeats, now, ttl)
  {
    hide LiveQuotes, Shown;
    if q.name in byName {
      LiveQuotesOf(byName[q.name], now, q);
    }
    if LiveOf(q, byName, now, {}) {
      var t :| t in byName[q.name] && ToQuote(t) == Some(q);
      QuoteIff(q, t);
      assert InGroup(t, byName);
    }
    if t :| Shown(t, tickers, heartbeats, now, ttl) && IsQuoteOf(q, t) {
      QuoteIff(q, t);
      assert InGroup(t, byName);
    }
  }

  function Members<T>(s: seq<T>): set<T> {
    if s == [] then {} else Members(Front(s)) + {Last(s)}
  }

  lemma {:induction false} MembersAre<T>(s: seq<T>, x: T)
    ensures x in Members(s) <==> x in s
  {
    if s != [] {
      MembersAre(Front(s), x);
      assert s == Front(s) + [Last(s)];
    }
  }

  // A sequence that repeats no listing has as many members as elements.
  lemma {:induction false} CountMembers(quotes: seq<Quote>)
    requires OneQuotePerListing(quotes)
    ensures |Members(quotes)| == |quotes|
  {
    if quotes != [] {
      CountMembers(Front(quotes));
      MembersAre(Front(quotes), Last(quotes));
      assert Last(quotes) !in Front(quotes);
    }
  }

  lemma SameMembersSameLength(a: seq<Quote>, b: seq<Quote>)
    requires OneQuotePerListing(a) && OneQuotePerListing(b) && forall q :: q in a <==> q in b
    ensures |a| == |b|
  {
    CountMembers(a);
    CountMembers(b);
    forall q
      ensures q in Members(a) <==> q in Members(b)
    {
      MembersAre(a, q);
      MembersAre(b, q);
    }
    hide Members, OneQuotePerListing;
    assert Members(a) == Members(b);
  }

  lemma MarketIsGrouped(g: Group, groups: seq<Group>, buckets: Buckets, byName: map<string, seq<CachedTicker>>,
                        tickers: map<Key, CachedTicker>, heartbeats: map<Key, TickerUpdate>, now: int, ttl: int)
    requires Shows(byName, tickers, heartbeats, now, ttl)
    requires Bucketed(buckets, byName, now, {}) && Grouped(groups, buckets, {})
    requires |g.quotes| >= LEGS_OF_A_BOX && ShowsMarket(g, tickers, heartbeats, now, ttl)
    ensures Group(g.underlying, g.expiry, InMarket(buckets, Market(g.underlying, g.expiry))) in groups
  {
    var m := Market(g.underlying, g.expiry);
    hide LiveOf, ShownQuote, Shows, OneQuotePerListing;
    forall q
      ensures q in g.quotes <==> q in InMarket(buckets, m)
    {
      LiveIsShown(q, byName, tickers, heartbeats, now, ttl);
      assert Holds(buckets, q) <==> LiveOf(q, byName, now, {});
    }
    assert g.quotes[0] in InMarket(buckets, m);
    SameMembersSameLength(g.quotes, buckets[m]);
  }

  lemma GroupShowsMarket(g: Group, groups: seq<Group>, buckets: Buckets, byName: map<string, seq<CachedTicker>>,
                         tickers: map<Key, CachedTicker>, heartbeats: map<Key, TickerUpdate>, now: int, ttl: int)
    requires Shows(byName, tickers, heartbeats, now, ttl)
    requires Bucketed(buckets, byName, now, {}) && Grouped(groups, buckets, {}) && g in groups
    ensures |g.quotes| >= LEGS_OF_A_BOX && ShowsMarket(g, tickers, heartbeats, now, ttl)
  {
    var m := Market(g.underlying, g.expiry);
    hide LiveOf, ShownQuote, Shows, OneQuotePerListing, DistinctGroups;
    forall q
      ensures q in g.quotes <==> ShownQuote(q, tickers, heartbeats, now, ttl) && MarketOf(q) == m
    {
      LiveIsShown(q, byName, tickers, heartbeats, now, ttl);
      assert Holds(buckets, q) <==> LiveOf(q, byName, now, {});
    }
  }

  lemma GroupsShowMarkets(groups: seq<Group>, buckets: Buckets, byName: map<string, seq<CachedTicker>>,
                          tickers: map<Key, CachedTicker>, heartbeats: map<Key, TickerUpdate>, now: int, ttl: int)
    requires Shows(byName, tickers, heartbeats, now, ttl)
    requires Bucketed(buckets, byName, now, {}) && Grouped(groups, buckets, {})
    ensures DistinctGroups(groups) && ShowsMarkets(groups, tickers, heartbeats, now, ttl)
  {
    assert DistinctGroups(groups);
    hide Shows, Bucketed, Grouped, ShowsMarket, DistinctGroups;
    forall g: Group | g in groups
      ensures |g.quotes| >= LEGS_OF_A_BOX && ShowsMarket(g, tickers, heartbeats, now, ttl)
    {
      GroupShowsMarket(g, groups, buckets, byName, tickers, heartbeats, now, ttl);
    }
    forall g: Group | |g.quotes| >= LEGS_OF_A_BOX && ShowsMarket(g, tickers, heartbeats, now, ttl)
      ensures exists h: Group :: h in groups && h.underlying == g.underlying && h.expiry == g.expiry
    {
      MarketIsGrouped(g, groups, buckets, byName, tickers, heartbeats, now, ttl);
    }
  }

  // A leg is a valid shown quote of the box's market.
  ghost predicate ShownLeg(q: Quote, b: Box, strike: real, optionType: OptionType, tickers: map<Key, CachedTicker>,
                           heartbeats: map<Key, TickerUpdate>, now: int, ttl: int)
  {
    && ShownQuote(q, tickers, heartbeats, now, ttl) && IsValid(q)
    && MarketOf(q) == Market(b.underlying, b.expiry) && q.strike == strike && q.optionType == optionType
  }

  ghost predicate ShownBox(b: Box, tickers: map<Key, CachedTicker>, heartbeats: map<Key, TickerUpdate>, now: int, ttl: int)
  {
    && ShownLeg(b.longC1, b, b.k1, Call, tickers, heartbeats, now, ttl)
    && ShownLeg(b.shortP1, b, b.k1, Put, tickers, heartbeats, now, ttl)
    && ShownLeg(b.shortC2, b, b.k2, Call, tickers, heartbeats, now, ttl)
    && ShownLeg(b.longP2, b, b.k2, Put, tickers, heartbeats, now, ttl)
  }

  lemma BoxOfMarketIsShown(g: Group, k1: real, k2: real, t: Thresholds, tickers: map<Key, CachedTicker>,
                           heartbeats: map<Key, TickerUpdate>, now: int, ttl: int)
    requires ShowsMarket(g, tickers, heartbeats, now, ttl) && TryBox(g, k1, k2, t).Some?
    ensures ShownBox(TryBox(g, k1, k2, t).value, tickers, heartbeats, now, ttl)
  {
    EmittedLegs(g, k1, k2, t);
    hide TryBox, Quoted, ShownQuote, OneQuotePerListing, EntryCost, Fees;
  }

  // Whatever the cache went through: the boxes are all those of the markets with four quotes shown, each
  // structure once, and every leg is a valid quote the cache shows; BoxEmittedIff says which these are.
  method ScreenBoxes(cache: BookCache, t: Thresholds, now: int) returns (boxes: seq<Box>, ghost groups: seq<Group>)
    requires cache.Valid()
    ensures ShowsMarkets(groups, cache.byKey, cache.heartbeats, now, cache.ttl)
    ensures DistinctGroups(groups) && Detected(groups, t, now, boxes)
    ensures forall b :: b in boxes ==> ShownBox(b, cache.byKey, cache.heartbeats, now, cache.ttl)
  {
    hide OneVenueEach, InGroup, Shown, Bucketed, Grouped, ShowsMarket, DistinctGroups, TryBox, ShownBox;
    var byName := cache.ByNormalizedName(now);
    var found, buckets := GroupQuotes(byName, now);
    GroupsShowMarkets(found, buckets, byName, cache.byKey, cache.heartbeats, now, cache.ttl);
    groups := found;
    boxes := DetectBoxes(found, t, now);
    forall b | b in boxes
      ensures ShownBox(b, cache.byKey, cache.heartbeats, now, cache.ttl)
    {
      var g :| g in groups && InHorizon(g, t, now) && TryBox(g, b.k1, b.k2, t) == Some(b);
      BoxOfMarketIsShown(g, b.k1, b.k2, t, cache.byKey, cache.heartbeats, now, cache.ttl);
    }
  }
}

// The in-memory cache of top-of-book tickers (backend/src/option_arb/market/book_cache.py) and the
// quote groups the screener forms from it (backend/src/option_arb/services/screener.py).
module BookCache {
  import opened OptionEconomics
  import opened Quotes
  import opened RealArithmetic
  import opened StableSorting
  import opened Wrappers

  datatype Key = Key(exchange: string, name: string)

  datatype Listing = Listing(
    exchange: string,
    name: string,
    underlying: string,
    expiry: int,
    strike: real,
    optionType: OptionType,
    takerFee: real)

  datatype TickerUpdate = TickerUpdate(
    exchange: string,
    instrument: string, // the underlying, for a heartbeat
    ts: int,
    bidPrice: Option<real>,
    bidSize: Option<real>,
    askPrice: Option<real>,
    askSize: Option<real>,
    spot: Option<real>,
    isHeartbeat: bool)

  datatype CachedTicker = CachedTicker(
    listing: Listing,
    bidPrice: Option<real>,
    bidSize: Option<real>,
    askPrice: Option<real>,
    askSize: Option<real>,
    spot: Option<real>,
    ts: int)

  function KeyOf(l: Listing): Key {
    Key(l.exchange, l.name)
  }

  predicate Filed(listings: map<Key, Listing>) {
    forall k :: k in listings ==> KeyOf(listings[k]) == k
  }

  predicate FiledTickers(tickers: map<Key, CachedTicker>) {
    forall k :: k in tickers ==> KeyOf(tickers[k].listing) == k
  }

  function Registered(listings: map<Key, Listing>, more: seq<Listing>): map<Key, Listing> {
    if more == [] then listings else Registered(listings, Front(more))[KeyOf(Last(more)) := Last(more)]
  }

  lemma {:induction false} RegisteredElsewhere(listings: map<Key, Listing>, more: seq<Listing>, k: Key)
    requires forall i :: 0 <= i < |more| ==> KeyOf(more[i]) != k
    ensures k in Registered(listings, more) <==> k in listings
    ensures k in listings ==> Registered(listings, more)[k] == listings[k]
  {
    if more != [] {
      assert KeyOf(more[|more| - 1]) != k;
      RegisteredElsewhere(listings, Front(more), k);
    }
  }

  // Each listing lands under its own key, and the last of several with one key wins.
  lemma {:induction false} LastRegisteredWins(listings: map<Key, Listing>, more: seq<Listing>, i: nat)
    requires i < |more| && forall j :: i < j < |more| ==> KeyOf(more[j]) != KeyOf(more[i])
    ensures KeyOf(more[i]) in Registered(listings, more) && Registered(listings, more)[KeyOf(more[i])] == more[i]
  {
    if i < |more| - 1 {
      LastRegisteredWins(listings, Front(more), i);
    }
  }

  // A later heartbeat of the underlying refreshes the age and the spot price, never the quote.
  function WithHeartbeat(t: CachedTicker, heartbeats: map<Key, TickerUpdate>): (effective: CachedTicker)
    ensures effective.listing == t.listing && effective.ts >= t.ts
    ensures (effective.bidPrice, effective.bidSize, effective.askPrice, effective.askSize)
         == (t.bidPrice, t.bidSize, t.askPrice, t.askSize)
  {
    var k := Key(t.listing.exchange, t.listing.underlying);
    if k !in heartbeats || heartbeats[k].ts <= t.ts then t
    else t.(ts := heartbeats[k].ts, spot := OrElse(heartbeats[k].spot, t.spot))
  }

  predicate IsFresh(t: CachedTicker, now: int, ttl: int) {
    now - t.ts <= ttl
  }

  // The ticker is what the cache shows for its key.
  predicate Shown(t: CachedTicker, tickers: map<Key, CachedTicker>, heartbeats: map<Key, TickerUpdate>, now: int, ttl: int)
  {
    && KeyOf(t.listing) in tickers
    && t == WithHeartbeat(tickers[KeyOf(t.listing)], heartbeats)
    && IsFresh(t, now, ttl)
  }

  // A cached ticker is shown exactly when itself or a later heartbeat of its underlying is young enough;
  // then as cached, but for its age and, if the heartbeat has one, its spot price.
  lemma ShownIff(k: Key, tickers: map<Key, CachedTicker>, heartbeats: map<Key, TickerUpdate>, now: int, ttl: int)
    requires k in tickers && KeyOf(tickers[k].listing) == k
    ensures var t := tickers[k];
      var beat := Key(t.listing.exchange, t.listing.underlying);
      var beaten := beat in heartbeats && t.ts < heartbeats[beat].ts;
      var at := if beaten then heartbeats[beat].ts else t.ts;
      var spot := if beaten && heartbeats[beat].spot.Some? && heartbeats[beat].spot.value != 0.0
                  then heartbeats[beat].spot else t.spot;
      && Shown(t.(ts := at, spot := spot), tickers, heartbeats, now, ttl) == (now <= at + ttl)
      && (forall u :: Shown(u, tickers, heartbeats, now, ttl) && KeyOf(u.listing) == k ==>
            u == t.(ts := at, spot := spot) && now <= at + ttl)
  {}

  // One instrument, one ticker per venue.
  predicate OneVenueEach(group: seq<CachedTicker>, name: string) {
    && (forall i :: 0 <= i < |group| ==> group[i].listing.name == name)
    && (forall i, j :: 0 <= i < j < |group| ==> group[i].listing.exchange != group[j].listing.exchange)
  }

  lemma OneMoreGone<V>(m: map<Key, V>, gone: set<Key>, k: Key)
    ensures m - gone - {k} == m - (gone + {k})
  {}

  lemma CountRest<V>(m: map<Key, V>, gone: set<Key>)
    requires gone <= m.Keys
    ensures |m - gone| == |m| - |gone|
  {
    assert (m - gone).Keys == m.Keys - gone;
    assert m.Keys == (m.Keys - gone) + gone;
  }

  predicate InGroup(t: CachedTicker, groups: map<string, seq<CachedTicker>>) {
    t.listing.name in groups && t in groups[t.listing.name]
  }

  // Grouping has dealt with every key outside `todo`.
  ghost predicate Grouped(groups: map<string, seq<CachedTicker>>, tickers: map<Key, CachedTicker>,
                          heartbeats: map<Key, TickerUpdate>, now: int, ttl: int, todo: set<Key>)
  {
    && (forall name :: name in groups ==> groups[name] != [] && OneVenueEach(groups[name], name))
    && (forall t: CachedTicker ::
          InGroup(t, groups) <==> Shown(t, tickers, heartbeats, now, ttl) && KeyOf(t.listing) !in todo)
  }

  lemma OneMoreStale(groups: map<string, seq<CachedTicker>>, tickers: map<Key, CachedTicker>,
                     heartbeats: map<Key, TickerUpdate>, now: int, ttl: int, todo: set<Key>, k: Key)
    requires Grouped(groups, tickers, heartbeats, now, ttl, todo)
    requires k in tickers && !IsFresh(WithHeartbeat(tickers[k], heartbeats), now, ttl)
    ensures Grouped(groups, tickers, heartbeats, now, ttl, todo - {k})
  {
    hide OneVenueEach, InGroup;
  }

  lemma VenueIsNew(groups: map<string, seq<CachedTicker>>, tickers: map<Key, CachedTicker>,
                   heartbeats: map<Key, TickerUpdate>, now: int, ttl: int, todo: set<Key>, k: Key)
    requires Grouped(groups, tickers, heartbeats, now, ttl, todo) && k in todo && k.name in groups
    ensures forall i :: 0 <= i < |groups[k.name]| ==> groups[k.name][i].listing.exchange != k.exchange
  {
    forall i | 0 <= i < |groups[k.name]|
      ensures groups[k.name][i].listing.exchange != k.exchange
    {
      var u := groups[k.name][i];
      assert u.listing.name == k.name;
      assert InGroup(u, groups);
    }
  }

  lemma OneMoreGrouped(groups: map<string, seq<CachedTicker>>, tickers: map<Key, CachedTicker>,
                       heartbeats: map<Key, TickerUpdate>, now: int, ttl: int, todo: set<Key>, k: Key)
    requires FiledTickers(tickers) && Grouped(groups, tickers, heartbeats, now, ttl, todo)
    requires k in tickers && k in todo && IsFresh(WithHeartbeat(tickers[k], heartbeats), now, ttl)
    ensures var group := if k.name in groups then groups[k.name] else [];
      Grouped(groups[k.name := group + [WithHeartbeat(tickers[k], heartbeats)]], tickers, heartbeats, now, ttl, todo - {k})
  {
    var t := WithHeartbeat(tickers[k], heartbeats);
    var group := if k.name in groups then groups[k.name] else [];
    var groups' := groups[k.name := group + [t]];
    assert KeyOf(t.listing) == k;
    hide WithHeartbeat, IsFresh;
    if k.name in groups {
      VenueIsNew(groups, tickers, heartbeats, now, ttl, todo, k);
    }
    assert OneVenueEach(group + [t], k.name);
    forall u: CachedTicker
      ensures InGroup(u, groups') <==> InGroup(u, groups) || u == t
    {}
    forall u: CachedTicker
      ensures InGroup(u, groups') <==> Shown(u, tickers, heartbeats, now, ttl) && KeyOf(u.listing) !in todo - {k}
    {
      assert InGroup(u, groups) <==> Shown(u, tickers, heartbeats, now, ttl) && KeyOf(u.listing) !in todo;
    }
  }

  class BookCache {
    const ttl: int
    var byKey: map<Key, CachedTicker>
    var instruments: map<Key, Listing>
    var heartbeats: map<Key, TickerUpdate>

    ghost predicate Valid()
      reads this
    {
      Filed(instruments) && FiledTickers(byKey) && byKey.Keys <= instruments.Keys
    }

    constructor (ttl: int)
      ensures Valid() && this.ttl == ttl && byKey == map[] && instruments == map[] && heartbeats == map[]
    {
      this.ttl := ttl;
      byKey := map[];
      instruments := map[];
      heartbeats := map[];
    }

    method RegisterInstruments(listings: seq<Listing>)
      requires Valid()
      modifies this`instruments
      ensures Valid()
      ensures instruments == Registered(old(instruments), listings)
    {
      for i := 0 to |listings|
        invariant Filed(instruments) && byKey.Keys <= instruments.Keys
        invariant instruments == Registered(old(instruments), listings[..i])
      {
        assert Front(listings[..i + 1]) == listings[..i];
        instruments := instruments[KeyOf(listings[i]) := listings[i]];
      }
      assert listings[..|listings|] == listings;
    }

    // A heartbeat is kept aside; a quote is kept if its instrument is registered, and ignored if not.
    method Update(u: TickerUpdate)
      requires Valid()
      modifies this`byKey, this`heartbeats
      ensures Valid()
      ensures heartbeats == if u.isHeartbeat then old(heartbeats)[Key(u.exchange, u.instrument) := u] else old(heartbeats)
      ensures var k := Key(u.exchange, u.instrument);
        byKey == if u.isHeartbeat || k !in instruments then old(byKey)
                 else old(byKey)[k := CachedTicker(instruments[k], u.bidPrice, u.bidSize, u.askPrice, u.askSize, u.spot, u.ts)]
    {
      var k := Key(u.exchange, u.instrument);
      if u.isHeartbeat {
        heartbeats := heartbeats[k := u];
        return;
      }
      if k !in instruments {
        return;
      }
      byKey := byKey[k := CachedTicker(instruments[k], u.bidPrice, u.bidSize, u.askPrice, u.askSize, u.spot, u.ts)];
    }

    // Exactly the instruments whose expiry has passed go, with their tickers.
    method EvictExpired(now: int) returns (count: nat)
      requires Valid()
      modifies this`byKey, this`instruments
      ensures Valid()
      ensures forall k :: k in instruments <==> k in old(instruments) && old(instruments[k]).expiry >= now
      ensures forall k :: k in instruments ==> instruments[k] == old(instruments[k])
      ensures forall k :: k in byKey <==> k in old(byKey) && k in instruments
      ensures forall k :: k in byKey ==> byKey[k] == old(byKey[k])
      ensures count == old(|instruments|) - |instruments|
    {
      var expired := set k | k in instruments && instruments[k].expiry < now;
      var todo := expired;
      ghost var gone := {};
      while todo != {}
        invariant gone + todo == expired
        invariant instruments == old(instruments) - gone
        invariant byKey == old(byKey) - gone
        decreases |todo|
      {
        var k :| k in todo;
        OneMoreGone(old(instruments), gone, k);
        OneMoreGone(old(byKey), gone, k);
        todo := todo - {k};
        gone := gone + {k};
        instruments := instruments - {k};
        byKey := byKey - {k};
      }
      assert gone == expired;
      CountRest(old(instruments), expired);
      return |expired|;
    }

    // The fresh tickers, each once.
    method Snapshot(now: int) returns (current: seq<CachedTicker>)
      requires Valid()
      ensures forall t :: t in current <==> Shown(t, byKey, heartbeats, now, ttl)
      ensures forall i, j :: 0 <= i < j < |current| ==> KeyOf(current[i].listing) != KeyOf(current[j].listing)
    {
      current := [];
      var todo := byKey.Keys;
      while todo != {}
        invariant todo <= byKey.Keys
        invariant forall t :: t in current <==> Shown(t, byKey, heartbeats, now, ttl) && KeyOf(t.listing) !in todo
        invariant forall i, j :: 0 <= i < j < |current| ==> KeyOf(current[i].listing) != KeyOf(current[j].listing)
        decreases |todo|
      {
        var k :| k in todo;
        todo := todo - {k};
        var t := WithHeartbeat(byKey[k], heartbeats);
        if IsFresh(t, now, ttl) {
          current := current + [t];
        }
      }
    }

    // The fresh tickers by instrument: a group holds exactly those of its name, one per venue.
    method ByNormalizedName(now: int) returns (groups: map<string, seq<CachedTicker>>)
      requires Valid()
      ensures forall name :: name in groups ==> groups[name] != [] && OneVenueEach(groups[name], name)
      ensures forall t: CachedTicker :: InGroup(t, groups) <==> Shown(t, byKey, heartbeats, now, ttl)
    {
      groups := map[];
      var todo := byKey.Keys;
      while todo != {}
        invariant todo <= byKey.Keys
        invariant Grouped(groups, byKey, heartbeats, now, ttl, todo)
        decreases |todo|
      {
        hide Grouped, IsFresh, WithHeartbeat;
        var k :| k in todo;
        var t := WithHeartbeat(byKey[k], heartbeats);
        if IsFresh(t, now, ttl) {
          OneMoreGrouped(groups, byKey, heartbeats, now, ttl, todo, k);
          var group := if k.name in groups then groups[k.name] else [];
          groups := groups[k.name := group + [t]];
        } else {
          OneMoreStale(groups, byKey, heartbeats, now, ttl, todo, k);
        }
        todo := todo - {k};
      }
    }
  }

  // ---------------------------------------------------------------------------------------------
  // From tickers to comparable quotes
  // ---------------------------------------------------------------------------------------------

  // A missing or zero field makes the ticker unusable.
  predicate Given(x: Option<real>) {
    x.Some? && x.value != 0.0
  }

  function ToQuote(t: CachedTicker): Option<Quote> {
    if !(Given(t.bidPrice) && Given(t.askPrice) && Given(t.bidSize) && Given(t.askSize)) then None
    else
      var l := t.listing;
      Some(Quote(l.exchange, l.name, l.underlying, l.strike, l.optionType, l.expiry, l.takerFee,
                 t.bidPrice.value, t.bidSize.value, t.askPrice.value, t.askSize.value, t.spot))
  }

  // Quotes of the group that have not expired, in its order.
  function LiveQuotes(group: seq<CachedTicker>, now: int): seq<Quote> {
    if group == [] then []
    else
      var rest := LiveQuotes(Front(group), now);
      var q := ToQuote(Last(group));
      if q.Some? && q.value.expiry > now then rest + [q.value] else rest
  }

  predicate Comparable(quotes: seq<Quote>) {
    && OneName(quotes)
    && (forall i, j :: 0 <= i < j < |quotes| ==> quotes[i].exchange != quotes[j].exchange)
  }

  lemma OneMoreVenue(quotes: seq<Quote>, q: Quote, name: string)
    requires Comparable(quotes) && q.name == name
    requires forall k :: 0 <= k < |quotes| ==> quotes[k].exchange != q.exchange && quotes[k].name == name
    ensures Comparable(quotes + [q])
  {}

  lemma {:induction false} QuotesKeepVenues(group: seq<CachedTicker>, now: int)
    ensures forall q :: q in LiveQuotes(group, now) ==> exists i :: 0 <= i < |group| && group[i].listing.exchange == q.exchange
  {
    if group != [] {
      QuotesKeepVenues(Front(group), now);
      assert forall i :: 0 <= i < |group| - 1 ==> Front(group)[i] == group[i];
      assert Last(group) == group[|group| - 1];
    }
  }

  // Dropping tickers leaves the group one instrument with one quote per venue.
  lemma {:induction false} LiveQuotesAreComparable(group: seq<CachedTicker>, name: string, now: int)
    requires OneVenueEach(group, name)
    ensures Comparable(LiveQuotes(group, now))
    ensures forall q :: q in LiveQuotes(group, now) ==> q.name == name && q.expiry > now
  {
    if group != [] {
      var front := Front(group);
      assert forall i :: 0 <= i < |front| ==> front[i] == group[i];
      LiveQuotesAreComparable(front, name, now);
      QuotesKeepVenues(front, now);
      var last := Last(group);
      assert last == group[|group| - 1];
      var rest := LiveQuotes(front, now);
      forall k | 0 <= k < |rest|
        ensures rest[k].exchange != last.listing.exchange && rest[k].name == name
      {
        assert rest[k] in rest;
        var i :| 0 <= i < |front| && front[i].listing.exchange == rest[k].exchange;
        assert group[i].listing.exchange != group[|group| - 1].listing.exchange;
      }
      var q := ToQuote(last);
      hide OneVenueEach, Comparable, ToQuote;
      if q.Some? {
        OneMoreVenue(rest, q.value, name);
      }
    }
  }

  lemma {:induction false} LiveQuotesOf(group: seq<CachedTicker>, now: int, q: Quote)
    ensures q in LiveQuotes(group, now) <==>
      q.expiry > now && exists t :: t in group && ToQuote(t) == Some(q)
  {
    hide ToQuote;
    if group != [] {
      LiveQuotesOf(Front(group), now, q);
      assert forall t :: t in group <==> t in Front(group) || t == Last(group);
    }
  }

  // The group is what the map holds of its instrument.
  predicate GroupOf(g: seq<Quote>, byName: map<string, seq<CachedTicker>>, now: int) {
    && |g| >= 2 && Comparable(g)
    && g[0].name in byName && g == LiveQuotes(byName[g[0].name], now)
  }

  predicate AllGroupsOf(groups: seq<seq<Quote>>, byName: map<string, seq<CachedTicker>>, now: int, todo: set<string>) {
    forall i :: 0 <= i < |groups| ==> GroupOf(groups[i], byName, now) && groups[i][0].name !in todo
  }

  predicate NamesDiffer(groups: seq<seq<Quote>>) {
    forall i, j :: 0 <= i < j < |groups| && groups[i] != [] && groups[j] != [] ==>
      groups[i][0].name != groups[j][0].name
  }

  // Every instrument outside `todo` with two live quotes has its group, each instrument once.
  predicate Grouping(groups: seq<seq<Quote>>, byName: map<string, seq<CachedTicker>>, now: int, todo: set<string>) {
    && AllGroupsOf(groups, byName, now, todo) && NamesDiffer(groups)
    && (forall name :: name in byName.Keys - todo && |LiveQuotes(byName[name], now)| >= 2 ==>
          LiveQuotes(byName[name], now) in groups)
  }

  lemma OneMoreInstrument(groups: seq<seq<Quote>>, byName: map<string, seq<CachedTicker>>, now: int, todo: set<string>,
                          name: string)
    requires Grouping(groups, byName, now, todo) && name in todo && name in byName && OneVenueEach(byName[name], name)
    ensures var quotes := LiveQuotes(byName[name], now);
      Grouping(if |quotes| >= 2 then groups + [quotes] else groups, byName, now, todo - {name})
  {
    LiveQuotesAreComparable(byName[name], name, now);
    var quotes := LiveQuotes(byName[name], now);
    hide LiveQuotes, Comparable, OneVenueEach;
    if |quotes| >= 2 {
      assert quotes[0] in quotes;
      assert GroupOf(quotes, byName, now);
      assert NamesDiffer(groups + [quotes]);
    }
    hide GroupOf, NamesDiffer;
  }

  lemma FewQuotes(group: seq<CachedTicker>, now: int)
    ensures |LiveQuotes(group, now)| <= |group|
  {
    hide ToQuote;
  }

  // The screener's grouping: instruments with at least two usable quotes.
  method QuoteGroups(byName: map<string, seq<CachedTicker>>, now: int) returns (groups: seq<seq<Quote>>)
    requires forall name :: name in byName ==> OneVenueEach(byName[name], name)
    ensures Grouping(groups, byName, now, {})
  {
    groups := [];
    var todo := byName.Keys;
    while todo != {}
      invariant todo <= byName.Keys
      invariant Grouping(groups, byName, now, todo)
      decreases |todo|
    {
      hide Grouping, LiveQuotes, OneVenueEach;
      var name :| name in todo;
      FewQuotes(byName[name], now);
      OneMoreInstrument(groups, byName, now, todo, name);
      todo := todo - {name};
      if |byName[name]| < 2 {
        continue;
      }
      var quotes := LiveQuotes(byName[name], now);
      if |quotes| >= 2 {
        groups := groups + [quotes];
      }
    }
  }

  // A quote the comparison may use: shown by the cache, not expired, valid and liquid enough.
  ghost predicate UsableQuote(q: Quote, tickers: map<Key, CachedTicker>, heartbeats: map<Key, TickerUpdate>, now: int,
                              ttl: int, minLiquidity: real)
  {
    && (exists t :: Shown(t, tickers, heartbeats, now, ttl) && ToQuote(t) == Some(q))
    && q.expiry > now && IsValid(q) && q.bidPrice * q.bidQty >= minLiquidity
  }

  predicate NoWiderQuotes(k: Quote, l: Quote, s: Spread) {
    0.0 < k.askPrice && SpreadPct(k.askPrice, l.bidPrice) <= s.econ.priceSpreadPct
  }

  // The same of a ticker, field by field.
  predicate UsableTicker(t: CachedTicker, now: int, minLiquidity: real) {
    && t.bidPrice.Some? && t.bidSize.Some? && t.askPrice.Some? && t.askSize.Some?
    && 0.0 < t.bidPrice.value && 0.0 < t.bidSize.value && 0.0 < t.askPrice.value && 0.0 < t.askSize.value
    && t.bidPrice.value * t.bidSize.value >= minLiquidity && now < t.listing.expiry
  }

  predicate ShownUsable(t: CachedTicker, tickers: map<Key, CachedTicker>, heartbeats: map<Key, TickerUpdate>, now: int,
                        ttl: int, minLiquidity: real)
  {
    Shown(t, tickers, heartbeats, now, ttl) && UsableTicker(t, now, minLiquidity)
  }

  // The spread buys at the ask of one ticker and sells at the bid of another one of its instrument, on
  // another venue, in the smaller of the two sizes, and earns what that brings after both fees.
  predicate TradesTickers(s: Spread, a: CachedTicker, b: CachedTicker) {
    && a.listing.name == s.instrument == b.listing.name
    && a.listing.exchange == s.buyFrom && b.listing.exchange == s.sellTo && s.buyFrom != s.sellTo
    && a.askPrice == Some(s.buyAsk) && b.bidPrice == Some(s.sellBid) && a.askSize.Some? && b.bidSize.Some?
    && s.econ.tradeableSize == (if a.askSize.value <= b.bidSize.value then a.askSize.value else b.bidSize.value)
    && s.econ.netProfit == Times(
         Times(s.sellBid, 1.0 - b.listing.takerFee) - Times(s.buyAsk, 1.0 + a.listing.takerFee), s.econ.tradeableSize)
  }

  // Buying at the ask of k and selling at the bid of l gains no larger share of the price.
  predicate NoWider(k: CachedTicker, l: CachedTicker, s: Spread) {
    && k.askPrice.Some? && 0.0 < k.askPrice.value && l.bidPrice.Some? && 0.0 < s.buyAsk
    && (l.bidPrice.value - k.askPrice.value) / k.askPrice.value <= (s.sellBid - s.buyAsk) / s.buyAsk
  }

  // The spread trades two usable tickers the cache shows, and no two on different venues show a wider one.
  ghost predicate WidestShown(s: Spread, tickers: map<Key, CachedTicker>, heartbeats: map<Key, TickerUpdate>, now: int,
                              ttl: int, minLiquidity: real)
  {
    && (exists a, b ::
          && ShownUsable(a, tickers, heartbeats, now, ttl, minLiquidity)
          && ShownUsable(b, tickers, heartbeats, now, ttl, minLiquidity) && TradesTickers(s, a, b))
    && (forall k, l :: (
          && ShownUsable(k, tickers, heartbeats, now, ttl, minLiquidity)
          && ShownUsable(l, tickers, heartbeats, now, ttl, minLiquidity)
          && k.listing.name == s.instrument == l.listing.name && k.listing.exchange != l.listing.exchange)
          ==> NoWider(k, l, s))
  }

  // What the quote built from a ticker holds.
  lemma QuoteOfTicker(t: CachedTicker, now: int, minLiquidity: real)
    ensures var q := ToQuote(t);
      && (UsableTicker(t, now, minLiquidity) <==>
            q.Some? && now < q.value.expiry && CanBeUsed(q.value, minLiquidity))
      && (q.Some? ==>
            && t.askPrice == Some(q.value.askPrice) && t.askSize == Some(q.value.askQty)
            && t.bidPrice == Some(q.value.bidPrice) && t.bidSize == Some(q.value.bidQty)
            && (q.value.exchange, q.value.name, q.value.underlying)
               == (t.listing.exchange, t.listing.name, t.listing.underlying)
            && (q.value.strike, q.value.optionType, q.value.expiry)
               == (t.listing.strike, t.listing.optionType, t.listing.expiry)
            && q.value.takerFee == t.listing.takerFee && q.value.spot == t.spot)
  {}

  // The quote of a ticker, field by field: all four prices and sizes are there and not zero.
  predicate IsQuoteOf(q: Quote, t: CachedTicker) {
    && t.askPrice == Some(q.askPrice) && t.askSize == Some(q.askQty)
    && t.bidPrice == Some(q.bidPrice) && t.bidSize == Some(q.bidQty)
    && q.askPrice != 0.0 && q.askQty != 0.0 && q.bidPrice != 0.0 && q.bidQty != 0.0
    && q.exchange == t.listing.exchange && q.name == t.listing.name && q.underlying == t.listing.underlying
    && q.strike == t.listing.strike && q.optionType == t.listing.optionType && q.expiry == t.listing.expiry
    && q.takerFee == t.listing.takerFee && q.spot == t.spot
  }

  lemma QuoteIff(q: Quote, t: CachedTicker)
    ensures ToQuote(t) == Some(q) <==> IsQuoteOf(q, t)
  {}

  // The best ask and the best bid shown of an instrument, each the only one, on different venues.
  ghost predicate BestShown(a: CachedTicker, b: CachedTicker, tickers: map<Key, CachedTicker>,
                            heartbeats: map<Key, TickerUpdate>, now: int, ttl: int, minLiquidity: real)
  {
    && ShownUsable(a, tickers, heartbeats, now, ttl, minLiquidity)
    && ShownUsable(b, tickers, heartbeats, now, ttl, minLiquidity)
    && a.listing.name == b.listing.name && a.listing.exchange != b.listing.exchange
    && (forall t :: ShownUsable(t, tickers, heartbeats, now, ttl, minLiquidity) && t.listing.name == a.listing.name ==>
          && (t != a ==> a.askPrice.value < t.askPrice.value)
          && (t != b ==> t.bidPrice.value < b.bidPrice.value))
  }

  // Trading them can be priced and leaves a profit after both fees.
  predicate ProfitableTickers(a: CachedTicker, b: CachedTicker)
    requires a.askPrice.Some? && b.bidPrice.Some?
  {
    && (if Given(b.spot) then b.spot.value > 0.0 else a.spot.Some? && a.spot.value > 0.0)
    && b.listing.strike >= 0.0 && a.listing.takerFee >= 0.0 && b.listing.takerFee >= 0.0
    && Times(b.bidPrice.value, 1.0 - b.listing.takerFee) > Times(a.askPrice.value, 1.0 + a.listing.takerFee)
  }

  // The groups are those of everything the cache shows.
  ghost predicate Shows(byName: map<string, seq<CachedTicker>>, tickers: map<Key, CachedTicker>,
                        heartbeats: map<Key, TickerUpdate>, now: int, ttl: int)
  {
    && (forall name :: name in byName ==> OneVenueEach(byName[name], name))
    && (forall t: CachedTicker :: InGroup(t, byName) <==> Shown(t, tickers, heartbeats, now, ttl))
  }

  lemma {:induction false} SpreadsOf(groups: seq<seq<Quote>>, minLiquidity: real, now: int)
    ensures forall s :: s in Spreads(groups, minLiquidity, now) <==>
      exists i :: 0 <= i < |groups| && Compare(groups[i], minLiquidity, now) == Some(s)
  {
    hide Compare;
    if groups != [] {
      var front := Front(groups);
      SpreadsOf(front, minLiquidity, now);
      assert forall i :: 0 <= i < |front| ==> front[i] == groups[i];
      assert Last(groups) == groups[|groups| - 1];
    }
  }

  lemma CompareKeepsName(quotes: seq<Quote>, minLiquidity: real, now: int)
    requires Compare(quotes, minLiquidity, now).Some?
    ensures |quotes| >= 2 && Compare(quotes, minLiquidity, now).value.instrument == quotes[0].name
    ensures Compare(quotes, minLiquidity, now).value.econ.netProfit > 0.0
  {
    hide Usable, PairEconomics;
  }

  predicate OnePerInstrument(spreads: seq<Spread>) {
    forall i, j :: 0 <= i < j < |spreads| ==> spreads[i].instrument != spreads[j].instrument
  }

  lemma {:induction false} SpreadNamesDiffer(groups: seq<seq<Quote>>, minLiquidity: real, now: int)
    requires NamesDiffer(groups)
    ensures OnePerInstrument(Spreads(groups, minLiquidity, now))
  {
    hide Compare;
    if groups != [] {
      var front := Front(groups);
      assert forall i :: 0 <= i < |front| ==> front[i] == groups[i];
      SpreadNamesDiffer(front, minLiquidity, now);
      var before := Spreads(front, minLiquidity, now);
      var last := Compare(Last(groups), minLiquidity, now);
      var spreads := Spreads(groups, minLiquidity, now);
      if last.None? {
        assert spreads == before;
      } else {
        assert spreads == before + [last.value];
        CompareKeepsName(Last(groups), minLiquidity, now);
        SpreadsOf(front, minLiquidity, now);
        forall i | 0 <= i < |before|
          ensures before[i].instrument != last.value.instrument
        {
          assert before[i] in before;
          var k :| 0 <= k < |front| && Compare(front[k], minLiquidity, now) == Some(before[i]);
          CompareKeepsName(front[k], minLiquidity, now);
          assert groups[k][0].name != groups[|groups| - 1][0].name;
        }
      }
    }
  }

  lemma SpreadsOfGroups(groups: seq<seq<Quote>>, byName: map<string, seq<CachedTicker>>, minLiquidity: real, now: int)
    requires Grouping(groups, byName, now, {})
    ensures var spreads := Spreads(groups, minLiquidity, now);
      && (forall s :: s in spreads ==>
            exists name :: name in byName && Compare(LiveQuotes(byName[name], now), minLiquidity, now) == Some(s))
      && (forall name :: name in byName ==> (
            var s := Compare(LiveQuotes(byName[name], now), minLiquidity, now);
            s.Some? ==> s.value in spreads))
      && OnePerInstrument(spreads)
  {
    hide Compare, LiveQuotes, Comparable, Spreads;
    SpreadsOf(groups, minLiquidity, now);
    SpreadNamesDiffer(groups, minLiquidity, now);
    var spreads := Spreads(groups, minLiquidity, now);
    forall s | s in spreads
      ensures exists name :: name in byName && Compare(LiveQuotes(byName[name], now), minLiquidity, now) == Some(s)
    {
      var i :| 0 <= i < |groups| && Compare(groups[i], minLiquidity, now) == Some(s);
      assert GroupOf(groups[i], byName, now) && groups[i] == LiveQuotes(byName[groups[i][0].name], now);
    }
    forall name | name in byName && Compare(LiveQuotes(byName[name], now), minLiquidity, now).Some?
      ensures Compare(LiveQuotes(byName[name], now), minLiquidity, now).value in spreads
    {
      var quotes := LiveQuotes(byName[name], now);
      CompareKeepsName(quotes, minLiquidity, now);
      assert quotes in groups;
      var i :| 0 <= i < |groups| && groups[i] == quotes;
      var s := Compare(quotes, minLiquidity, now).value;
      assert Compare(groups[i], minLiquidity, now) == Some(s);
    }
  }

  lemma UsableOfGroup(q: Quote, name: string, byName: map<string, seq<CachedTicker>>, tickers: map<Key, CachedTicker>,
                      heartbeats: map<Key, TickerUpdate>, now: int, ttl: int, minLiquidity: real)
    requires Shows(byName, tickers, heartbeats, now, ttl) && name in byName
    ensures q in Usable(LiveQuotes(byName[name], now), minLiquidity) <==>
      q.name == name && UsableQuote(q, tickers, heartbeats, now, ttl, minLiquidity)
  {
    hide Usable, LiveQuotes, Shown;
    LiveQuotesOf(byName[name], now, q);
    if q in LiveQuotes(byName[name], now) {
      var t :| t in byName[name] && ToQuote(t) == Some(q);
      var i :| 0 <= i < |byName[name]| && byName[name][i] == t;
      assert t.listing.name == name && InGroup(t, byName);
    }
    if t :| Shown(t, tickers, heartbeats, now, ttl) && ToQuote(t) == Some(q) {
      assert InGroup(t, byName);
    }
  }

  lemma SpreadTradesShown(s: Spread, name: string, byName: map<string, seq<CachedTicker>>,
                          tickers: map<Key, CachedTicker>, heartbeats: map<Key, TickerUpdate>, now: int, ttl: int,
                          minLiquidity: real)
    returns (buy: Quote, sell: Quote)
    requires Shows(byName, tickers, heartbeats, now, ttl) && name in byName
    requires Compare(LiveQuotes(byName[name], now), minLiquidity, now) == Some(s)
    ensures UsableQuote(buy, tickers, heartbeats, now, ttl, minLiquidity)
    ensures UsableQuote(sell, tickers, heartbeats, now, ttl, minLiquidity)
    ensures buy.name == name == sell.name && buy.exchange != sell.exchange && OffersSpread(buy, sell, s)
  {
    hide Compare, Usable, LiveQuotes, UsableQuote, Shows, SpreadPct, OffersSpread;
    var quotes := LiveQuotes(byName[name], now);
    EmittedIsTradeable(quotes, minLiquidity, now);
    var usable := Usable(quotes, minLiquidity);
    buy, sell :| buy in usable && sell in usable && buy.exchange != sell.exchange && OffersSpread(buy, sell, s);
    UsableOfGroup(buy, name, byName, tickers, heartbeats, now, ttl, minLiquidity);
    UsableOfGroup(sell, name, byName, tickers, heartbeats, now, ttl, minLiquidity);
  }

  lemma NoneShownIsWider(s: Spread, name: string, byName: map<string, seq<CachedTicker>>,
                         tickers: map<Key, CachedTicker>, heartbeats: map<Key, TickerUpdate>, now: int, ttl: int,
                         minLiquidity: real, k: Quote, l: Quote)
    requires Shows(byName, tickers, heartbeats, now, ttl) && name in byName
    requires Compare(LiveQuotes(byName[name], now), minLiquidity, now) == Some(s)
    requires UsableQuote(k, tickers, heartbeats, now, ttl, minLiquidity)
    requires UsableQuote(l, tickers, heartbeats, now, ttl, minLiquidity)
    requires k.name == name == l.name && k.exchange != l.exchange
    ensures NoWiderQuotes(k, l, s)
  {
    hide Compare, Usable, LiveQuotes, Shows, SpreadPct, Shown, ToQuote;
    UsableOfGroup(k, name, byName, tickers, heartbeats, now, ttl, minLiquidity);
    UsableOfGroup(l, name, byName, tickers, heartbeats, now, ttl, minLiquidity);
    EmittedDominates(LiveQuotes(byName[name], now), minLiquidity, now, k, l);
  }

  lemma SpreadOfInstrument(s: Spread, name: string, group: seq<CachedTicker>, minLiquidity: real, now: int)
    requires OneVenueEach(group, name) && Compare(LiveQuotes(group, now), minLiquidity, now) == Some(s)
    ensures s.econ.netProfit > 0.0 && s.instrument == name
  {
    hide Compare, LiveQuotes, OneVenueEach;
    var quotes := LiveQuotes(group, now);
    CompareKeepsName(quotes, minLiquidity, now);
    LiveQuotesAreComparable(group, name, now);
    assert quotes[0] in quotes;
  }

  lemma UsableTickerQuote(t: CachedTicker, tickers: map<Key, CachedTicker>, heartbeats: map<Key, TickerUpdate>, now: int,
                          ttl: int, minLiquidity: real)
    requires ShownUsable(t, tickers, heartbeats, now, ttl, minLiquidity)
    ensures ToQuote(t).Some? && UsableQuote(ToQuote(t).value, tickers, heartbeats, now, ttl, minLiquidity)
  {
    QuoteOfTicker(t, now, minLiquidity);
    hide Shown, ToQuote, UsableTicker;
  }

  lemma TickerOfQuote(q: Quote, tickers: map<Key, CachedTicker>, heartbeats: map<Key, TickerUpdate>, now: int, ttl: int,
                      minLiquidity: real) returns (t: CachedTicker)
    requires UsableQuote(q, tickers, heartbeats, now, ttl, minLiquidity)
    ensures ShownUsable(t, tickers, heartbeats, now, ttl, minLiquidity) && ToQuote(t) == Some(q)
  {
    hide ToQuote, Shown, UsableTicker;
    t :| Shown(t, tickers, heartbeats, now, ttl) && ToQuote(t) == Some(q);
    QuoteOfTicker(t, now, minLiquidity);
  }

  lemma OffersTickers(s: Spread, a: CachedTicker, b: CachedTicker, now: int, minLiquidity: real)
    requires ToQuote(a).Some? && ToQuote(b).Some? && OffersSpread(ToQuote(a).value, ToQuote(b).value, s)
    requires a.listing.name == s.instrument == b.listing.name && a.listing.exchange != b.listing.exchange
    ensures TradesTickers(s, a, b)
    ensures 0.0 < s.buyAsk && s.econ.priceSpreadPct == SpreadPct(s.buyAsk, s.sellBid)
  {
    QuoteOfTicker(a, now, minLiquidity);
    QuoteOfTicker(b, now, minLiquidity);
    hide ToQuote, UsableTicker, SpreadPct, Times;
  }

  lemma NoWiderTickers(k: CachedTicker, l: CachedTicker, s: Spread, now: int, minLiquidity: real)
    requires ToQuote(k).Some? && ToQuote(l).Some? && NoWiderQuotes(ToQuote(k).value, ToQuote(l).value, s)
    requires 0.0 < s.buyAsk && s.econ.priceSpreadPct == SpreadPct(s.buyAsk, s.sellBid)
    ensures NoWider(k, l, s)
  {
    QuoteOfTicker(k, now, minLiquidity);
    QuoteOfTicker(l, now, minLiquidity);
    hide ToQuote, UsableTicker;
  }

  lemma SpreadIsWidestShown(s: Spread, name: string, byName: map<string, seq<CachedTicker>>,
                            tickers: map<Key, CachedTicker>, heartbeats: map<Key, TickerUpdate>, now: int, ttl: int,
                            minLiquidity: real)
    requires Shows(byName, tickers, heartbeats, now, ttl) && name in byName
    requires Compare(LiveQuotes(byName[name], now), minLiquidity, now) == Some(s)
    ensures s.econ.netProfit > 0.0 && s.instrument == name
    ensures WidestShown(s, tickers, heartbeats, now, ttl, minLiquidity)
  {
    SpreadOfInstrument(s, name, byName[name], minLiquidity, now);
    hide Compare, LiveQuotes, Shows, OffersSpread, UsableQuote, NoWider, NoWiderQuotes, OneVenueEach, ToQuote, ShownUsable,
      TradesTickers, SpreadPct;
    var buy, sell := SpreadTradesShown(s, name, byName, tickers, heartbeats, now, ttl, minLiquidity);
    var a := TickerOfQuote(buy, tickers, heartbeats, now, ttl, minLiquidity);
    var b := TickerOfQuote(sell, tickers, heartbeats, now, ttl, minLiquidity);
    QuoteOfTicker(a, now, minLiquidity);
    QuoteOfTicker(b, now, minLiquidity);
    OffersTickers(s, a, b, now, minLiquidity);
    forall k, l | (
      && ShownUsable(k, tickers, heartbeats, now, ttl, minLiquidity)
      && ShownUsable(l, tickers, heartbeats, now, ttl, minLiquidity)
      && k.listing.name == s.instrument == l.listing.name && k.listing.exchange != l.listing.exchange)
      ensures NoWider(k, l, s)
    {
      UsableTickerQuote(k, tickers, heartbeats, now, ttl, minLiquidity);
      UsableTickerQuote(l, tickers, heartbeats, now, ttl, minLiquidity);
      QuoteOfTicker(k, now, minLiquidity);
      QuoteOfTicker(l, now, minLiquidity);
      NoneShownIsWider(s, name, byName, tickers, heartbeats, now, ttl, minLiquidity, ToQuote(k).value, ToQuote(l).value);
      NoWiderTickers(k, l, s, now, minLiquidity);
    }
  }

  lemma GroupQuote(t: CachedTicker, name: string, byName: map<string, seq<CachedTicker>>,
                   tickers: map<Key, CachedTicker>, heartbeats: map<Key, TickerUpdate>, now: int, ttl: int,
                   minLiquidity: real) returns (i: nat)
    requires Shows(byName, tickers, heartbeats, now, ttl) && name in byName && t.listing.name == name
    requires ShownUsable(t, tickers, heartbeats, now, ttl, minLiquidity)
    ensures var quotes := LiveQuotes(byName[name], now);
      i < |quotes| && ToQuote(t) == Some(quotes[i]) && CanBeUsed(quotes[i], minLiquidity)
  {
    QuoteOfTicker(t, now, minLiquidity);
    UsableTickerQuote(t, tickers, heartbeats, now, ttl, minLiquidity);
    UsableOfGroup(ToQuote(t).value, name, byName, tickers, heartbeats, now, ttl, minLiquidity);
    hide LiveQuotes, Shown, ToQuote, UsableTicker, Shows, UsableQuote;
    var quotes := LiveQuotes(byName[name], now);
    i :| 0 <= i < |quotes| && quotes[i] == ToQuote(t).value;
  }

  lemma TickerOfGroup(q: Quote, name: string, byName: map<string, seq<CachedTicker>>, tickers: map<Key, CachedTicker>,
                      heartbeats: map<Key, TickerUpdate>, now: int, ttl: int, minLiquidity: real)
    returns (t: CachedTicker)
    requires Shows(byName, tickers, heartbeats, now, ttl) && name in byName
    requires q in LiveQuotes(byName[name], now) && CanBeUsed(q, minLiquidity)
    ensures ShownUsable(t, tickers, heartbeats, now, ttl, minLiquidity) && ToQuote(t) == Some(q)
    ensures t.listing.name == name
  {
    UsableOfGroup(q, name, byName, tickers, heartbeats, now, ttl, minLiquidity);
    hide LiveQuotes, Shows, UsableQuote, ToQuote;
    t := TickerOfQuote(q, tickers, heartbeats, now, ttl, minLiquidity);
    QuoteOfTicker(t, now, minLiquidity);
  }

  // The best tickers shown of an instrument are the picks of its group.
  lemma BestArePicked(a: CachedTicker, b: CachedTicker, name: string, byName: map<string, seq<CachedTicker>>,
                      tickers: map<Key, CachedTicker>, heartbeats: map<Key, TickerUpdate>, now: int, ttl: int,
                      minLiquidity: real) returns (lo: nat, hi: nat)
    requires Shows(byName, tickers, heartbeats, now, ttl) && name in byName && a.listing.name == name
    requires BestShown(a, b, tickers, heartbeats, now, ttl, minLiquidity)
    ensures var quotes, ok := LiveQuotes(byName[name], now), UsableAt(minLiquidity);
      && FirstLowestAsk(quotes, ok, lo) && FirstHighestBid(quotes, ok, hi)
      && ToQuote(a) == Some(quotes[lo]) && ToQuote(b) == Some(quotes[hi])
  {
    hide LiveQuotes, Shows, ToQuote, ShownUsable;
    var quotes, ok := LiveQuotes(byName[name], now), UsableAt(minLiquidity);
    var i := GroupQuote(a, name, byName, tickers, heartbeats, now, ttl, minLiquidity);
    var j := GroupQuote(b, name, byName, tickers, heartbeats, now, ttl, minLiquidity);
    lo, hi := SomeFirst(quotes, ok);
    var low := TickerOfGroup(quotes[lo], name, byName, tickers, heartbeats, now, ttl, minLiquidity);
    var high := TickerOfGroup(quotes[hi], name, byName, tickers, heartbeats, now, ttl, minLiquidity);
    QuoteOfTicker(a, now, minLiquidity);
    QuoteOfTicker(b, now, minLiquidity);
    QuoteOfTicker(low, now, minLiquidity);
    QuoteOfTicker(high, now, minLiquidity);
    hide UsableTicker;
  }

  lemma ProfitableQuotes(a: CachedTicker, b: CachedTicker, expiry: int, now: int)
    requires ToQuote(a).Some? && ToQuote(b).Some? && ProfitableTickers(a, b) && now < expiry
    ensures Profitable(ToQuote(a).value, ToQuote(b).value, expiry, now)
  {
    QuoteOfTicker(a, now, 0.0);
    QuoteOfTicker(b, now, 0.0);
    hide ToQuote, UsableTicker, Times;
  }

  lemma PickedAreTraded(a: CachedTicker, b: CachedTicker, quotes: seq<Quote>, lo: nat, hi: nat, now: int,
                        minLiquidity: real)
    requires FirstLowestAsk(quotes, UsableAt(minLiquidity), lo) && FirstHighestBid(quotes, UsableAt(minLiquidity), hi)
    requires ToQuote(a) == Some(quotes[lo]) && ToQuote(b) == Some(quotes[hi])
    requires a.listing.name == quotes[0].name == b.listing.name && a.listing.exchange != b.listing.exchange
    requires now < quotes[0].expiry && ProfitableTickers(a, b)
    ensures var s := Compare(quotes, minLiquidity, now);
      s.Some? && TradesTickers(s.value, a, b)
  {
    QuoteOfTicker(a, now, minLiquidity);
    QuoteOfTicker(b, now, minLiquidity);
    ProfitableQuotes(a, b, quotes[0].expiry, now);
    hide ToQuote, Compare, OffersSpread, TradesTickers, UsableTicker, DaysToExpiry, Times, Profitable, ProfitableTickers;
    CompareIff(quotes, minLiquidity, now, lo, hi);
    hide FirstLowestAsk, FirstHighestBid;
    OffersTickers(Compare(quotes, minLiquidity, now).value, a, b, now, minLiquidity);
  }

  lemma PickIsThere(quotes: seq<Quote>, ok: Quote -> bool, lo: nat)
    requires FirstLowestAsk(quotes, ok, lo)
    ensures quotes != [] && quotes[0] in quotes && lo < |quotes|
  {}

  // And if trading them is profitable that is the spread of the instrument.
  lemma BestAreTraded(a: CachedTicker, b: CachedTicker, name: string, byName: map<string, seq<CachedTicker>>,
                      tickers: map<Key, CachedTicker>, heartbeats: map<Key, TickerUpdate>, now: int, ttl: int,
                      minLiquidity: real)
    requires Shows(byName, tickers, heartbeats, now, ttl) && name in byName && a.listing.name == name
    requires BestShown(a, b, tickers, heartbeats, now, ttl, minLiquidity) && ProfitableTickers(a, b)
    ensures var s := Compare(LiveQuotes(byName[name], now), minLiquidity, now);
      s.Some? && TradesTickers(s.value, a, b)
  {
    assert OneVenueEach(byName[name], name);
    assert b.listing.name == name && a.listing.exchange != b.listing.exchange;
    hide *;
    var quotes := LiveQuotes(byName[name], now);
    var lo, hi := BestArePicked(a, b, name, byName, tickers, heartbeats, now, ttl, minLiquidity);
    LiveQuotesAreComparable(byName[name], name, now);
    PickIsThere(quotes, UsableAt(minLiquidity), lo);
    PickedAreTraded(a, b, quotes, lo, hi, now, minLiquidity);
  }

  lemma BestIsGrouped(a: CachedTicker, b: CachedTicker, byName: map<string, seq<CachedTicker>>,
                      tickers: map<Key, CachedTicker>, heartbeats: map<Key, TickerUpdate>, now: int, ttl: int,
                      minLiquidity: real)
    requires Shows(byName, tickers, heartbeats, now, ttl)
    requires BestShown(a, b, tickers, heartbeats, now, ttl, minLiquidity)
    ensures a.listing.name in byName
  {
    hide Shown, OneVenueEach, UsableTicker;
    assert InGroup(a, byName);
  }

  // Whatever the cache went through, comparing what it shows never meets mixed instruments.  Each
  // spread trades two of the tickers shown and is the widest there is on those of its instrument, there
  // is at most one per instrument, and every instrument whose comparison yields one is there, as it does
  // when the only best ask and the only best bid are on different venues and trade at a profit.
  method ScreenSpreads(cache: BookCache, minLiquidity: real, now: int)
    returns (spreads: seq<Spread>, ghost byName: map<string, seq<CachedTicker>>)
    requires cache.Valid()
    ensures Shows(byName, cache.byKey, cache.heartbeats, now, cache.ttl)
    ensures forall s :: s in spreads ==> s.econ.netProfit > 0.0
    ensures forall s :: s in spreads ==> WidestShown(s, cache.byKey, cache.heartbeats, now, cache.ttl, minLiquidity)
    ensures OnePerInstrument(spreads)
    ensures forall a, b ::
      BestShown(a, b, cache.byKey, cache.heartbeats, now, cache.ttl, minLiquidity) && ProfitableTickers(a, b) ==>
        exists s :: s in spreads && TradesTickers(s, a, b)
    ensures forall name :: name in byName ==> (
      var s := Compare(LiveQuotes(byName[name], now), minLiquidity, now);
      s.Some? ==> s.value in spreads)
  {
    hide OneVenueEach, InGroup, Shown, LiveQuotes, Compare, Spreads, WidestShown;
    var tickersByName := cache.ByNormalizedName(now);
    byName := tickersByName;
    var groups := QuoteGroups(tickersByName, now);
    var result := CompareOptions(groups, minLiquidity, now);
    assert result.Ok? by {
      forall i | 0 <= i < |groups|
        ensures OneName(groups[i])
      {
        assert GroupOf(groups[i], byName, now) && Comparable(groups[i]);
      }
    }
    spreads := result.value;
    SpreadsOfGroups(groups, byName, minLiquidity, now);
    forall s | s in spreads
      ensures s.econ.netProfit > 0.0
      ensures WidestShown(s, cache.byKey, cache.heartbeats, now, cache.ttl, minLiquidity)
    {
      var name :| name in byName && Compare(LiveQuotes(byName[name], now), minLiquidity, now) == Some(s);
      SpreadIsWidestShown(s, name, byName, cache.byKey, cache.heartbeats, now, cache.ttl, minLiquidity);
    }
    forall a, b | BestShown(a, b, cache.byKey, cache.heartbeats, now, cache.ttl, minLiquidity) && ProfitableTickers(a, b)
      ensures exists s :: s in spreads && TradesTickers(s, a, b)
    {
      BestIsGrouped(a, b, byName, cache.byKey, cache.heartbeats, now, cache.ttl, minLiquidity);
      BestAreTraded(a, b, a.listing.name, byName, cache.byKey, cache.heartbeats, now, cache.ttl, minLiquidity);
    }
  }
}

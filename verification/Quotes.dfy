// Picking the two venues to trade (backend/src/option_arb/services/comparator.py) and the exhaustive
// search the API shows beside it (backend/src/option_arb/api/tickers.py).
module Quotes {
  import opened OptionEconomics
  import opened RealArithmetic
  import opened StableSorting
  import opened Wrappers

  datatype Quote = Quote(
    exchange: string,
    name: string,
    underlying: string,
    strike: real,
    optionType: OptionType,
    expiry: int,
    takerFee: real,
    bidPrice: real,
    bidQty: real,
    askPrice: real,
    askQty: real,
    spot: Option<real>)

  datatype Spread = Spread(
    instrument: string,
    buyFrom: string,
    sellTo: string,
    expiry: int,
    daysToExpiry: real,
    buyAsk: real,
    sellBid: real,
    econ: Economics)

  datatype Mismatch = Mismatch(names: set<string>)

  predicate IsValid(q: Quote) {
    q.bidPrice > 0.0 && q.askPrice > 0.0 && q.bidQty > 0.0 && q.askQty > 0.0
  }

  predicate AllValid(quotes: seq<Quote>) {
    forall i :: 0 <= i < |quotes| ==> IsValid(quotes[i])
  }

  // ---------------------------------------------------------------------------------------------
  // The exhaustive search
  // ---------------------------------------------------------------------------------------------

  // Buying at `ask` and selling at `bid`, as a percentage of the price paid.
  function SpreadPct(ask: real, bid: real): real
    requires ask > 0.0
  {
    (bid - ask) / ask * 100.0
  }

  predicate CrossVenue(quotes: seq<Quote>, i: nat, j: nat) {
    i < |quotes| && j < |quotes| && quotes[i].exchange != quotes[j].exchange
  }

  // The pair (buy i, sell j) has the widest spread of all cross-venue pairs.
  ghost predicate IsBest(quotes: seq<Quote>, i: nat, j: nat)
    requires AllValid(quotes)
  {
    && CrossVenue(quotes, i, j)
    && (forall k: nat, l: nat :: CrossVenue(quotes, k, l) ==>
          SpreadPct(quotes[k].askPrice, quotes[l].bidPrice) <= SpreadPct(quotes[i].askPrice, quotes[j].bidPrice))
  }

  // The pairs tried before (k, l) in the order of the two loops.
  predicate Tried(i: nat, j: nat, k: nat, l: nat) {
    i < k || (i == k && j < l)
  }

  // No pair tried before (i, j) is as wide.
  ghost predicate FirstOfItsWidth(quotes: seq<Quote>, i: nat, j: nat)
    requires AllValid(quotes) && i < |quotes| && j < |quotes|
  {
    forall m: nat, n: nat :: Tried(m, n, i, j) && CrossVenue(quotes, m, n) ==>
      SpreadPct(quotes[m].askPrice, quotes[n].bidPrice) < SpreadPct(quotes[i].askPrice, quotes[j].bidPrice)
  }

  ghost predicate BestSoFar(quotes: seq<Quote>, best: Option<(nat, nat)>, k: nat, l: nat)
    requires AllValid(quotes)
  {
    && (best.None? ==> forall m: nat, n: nat :: Tried(m, n, k, l) ==> !CrossVenue(quotes, m, n))
    && (best.Some? ==>
          && CrossVenue(quotes, best.value.0, best.value.1)
          && (forall m: nat, n: nat :: Tried(m, n, k, l) && CrossVenue(quotes, m, n) ==>
                SpreadPct(quotes[m].askPrice, quotes[n].bidPrice)
                <= SpreadPct(quotes[best.value.0].askPrice, quotes[best.value.1].bidPrice))
          && FirstOfItsWidth(quotes, best.value.0, best.value.1))
  }

  predicate Wider(quotes: seq<Quote>, i: nat, j: nat, best: Option<(nat, nat)>)
    requires AllValid(quotes) && i < |quotes| && j < |quotes|
    requires best.Some? ==> best.value.0 < |quotes| && best.value.1 < |quotes|
  {
    best.None? || SpreadPct(quotes[i].askPrice, quotes[j].bidPrice)
                  > SpreadPct(quotes[best.value.0].askPrice, quotes[best.value.1].bidPrice)
  }

  lemma OneMoreTried(quotes: seq<Quote>, best: Option<(nat, nat)>, i: nat, j: nat)
    requires AllValid(quotes) && BestSoFar(quotes, best, i, j) && i < |quotes| && j < |quotes|
    ensures best.Some? ==> CrossVenue(quotes, best.value.0, best.value.1)
    ensures BestSoFar(quotes, if CrossVenue(quotes, i, j) && Wider(quotes, i, j, best) then Some((i, j)) else best, i, j + 1)
  {
    hide SpreadPct;
  }

  lemma NextBuyer(quotes: seq<Quote>, best: Option<(nat, nat)>, i: nat)
    requires AllValid(quotes) && BestSoFar(quotes, best, i, |quotes|)
    ensures BestSoFar(quotes, best, i + 1, 0)
  {
    hide SpreadPct;
  }

  predicate HasWidth(quotes: seq<Quote>, i: nat, j: nat, width: real) {
    && CrossVenue(quotes, i, j) && quotes[i].askPrice > 0.0
    && width == SpreadPct(quotes[i].askPrice, quotes[j].bidPrice)
  }

  lemma NoneTried(quotes: seq<Quote>)
    requires AllValid(quotes)
    ensures BestSoFar(quotes, None, 0, 0)
  {}

  lemma AllTried(quotes: seq<Quote>, best: Option<(nat, nat)>)
    requires AllValid(quotes) && BestSoFar(quotes, best, |quotes|, 0)
    ensures best.None? ==> forall i: nat, j: nat :: !CrossVenue(quotes, i, j)
    ensures best.Some? ==>
      IsBest(quotes, best.value.0, best.value.1) && FirstOfItsWidth(quotes, best.value.0, best.value.1)
  {
    hide SpreadPct, FirstOfItsWidth;
  }

  lemma AskIsPositive(quotes: seq<Quote>, i: nat)
    requires AllValid(quotes) && i < |quotes|
    ensures quotes[i].askPrice > 0.0
  {
    assert IsValid(quotes[i]);
  }

  // Tries every pair and keeps the first of the widest.
  method BestPair(quotes: seq<Quote>) returns (best: Option<(nat, nat)>)
    requires AllValid(quotes)
    ensures best.None? ==> forall i: nat, j: nat :: !CrossVenue(quotes, i, j)
    ensures best.Some? ==>
      IsBest(quotes, best.value.0, best.value.1) && FirstOfItsWidth(quotes, best.value.0, best.value.1)
  {
    hide SpreadPct, AllValid, IsBest, BestSoFar, FirstOfItsWidth;
    best := None;
    var width := 0.0;
    NoneTried(quotes);
    for i := 0 to |quotes|
      invariant BestSoFar(quotes, best, i, 0)
      invariant best.Some? ==> HasWidth(quotes, best.value.0, best.value.1, width)
    {
      for j := 0 to |quotes|
        invariant BestSoFar(quotes, best, i, j)
        invariant best.Some? ==> HasWidth(quotes, best.value.0, best.value.1, width)
      {
        OneMoreTried(quotes, best, i, j);
        if quotes[i].exchange == quotes[j].exchange {
          continue;
        }
        AskIsPositive(quotes, i);
        var spread := SpreadPct(quotes[i].askPrice, quotes[j].bidPrice);
        if best.None? || spread > width {
          width := spread;
          best := Some((i, j));
        }
      }
      NextBuyer(quotes, best, i);
    }
    AllTried(quotes, best);
  }

  // ---------------------------------------------------------------------------------------------
  // The linear pick
  // ---------------------------------------------------------------------------------------------

  // The first of the lowest asks.
  function LowestAsk(quotes: seq<Quote>): (i: nat)
    requires quotes != []
    ensures i < |quotes|
    ensures forall k :: 0 <= k < |quotes| ==> quotes[i].askPrice <= quotes[k].askPrice
    ensures forall k :: 0 <= k < i ==> quotes[i].askPrice < quotes[k].askPrice
  {
    if |quotes| == 1 then 0
    else
      var rest := LowestAsk(Front(quotes));
      assert forall k :: 0 <= k < |quotes| - 1 ==> quotes[k] == Front(quotes)[k];
      if Last(quotes).askPrice < quotes[rest].askPrice then |quotes| - 1 else rest
  }

  // The first of the highest bids.
  function HighestBid(quotes: seq<Quote>): (i: nat)
    requires quotes != []
    ensures i < |quotes|
    ensures forall k :: 0 <= k < |quotes| ==> quotes[k].bidPrice <= quotes[i].bidPrice
    ensures forall k :: 0 <= k < i ==> quotes[k].bidPrice < quotes[i].bidPrice
  {
    if |quotes| == 1 then 0
    else
      var rest := HighestBid(Front(quotes));
      assert forall k :: 0 <= k < |quotes| - 1 ==> quotes[k] == Front(quotes)[k];
      if quotes[rest].bidPrice < Last(quotes).bidPrice then |quotes| - 1 else rest
  }

  lemma RatioPositive(x: real, a: real)
    requires 0.0 < Times(x, a) && 0.0 < a
    ensures 0.0 < x
  {
    if x <= 0.0 {
      MulMono(x, 0.0, a);
    }
  }

  lemma TimesStrict(a: real, b: real, c: real)
    requires a < b && 0.0 < c
    ensures Times(a, c) < Times(b, c)
    ensures Times(c, a) == Times(a, c) && Times(c, b) == Times(b, c)
  {
    MulPositive(b - a, c);
  }

  lemma SpreadMono(ask: real, bid: real, ask': real, bid': real)
    requires 0.0 < ask <= ask' && 0.0 < bid' <= bid
    ensures SpreadPct(ask', bid') <= SpreadPct(ask, bid)
  {
    var r, r' := (bid - ask) / ask, (bid' - ask') / ask';
    DivMul(bid - ask, ask);
    DivMul(bid' - ask', ask');
    // (r + 1) * ask == bid and (r' + 1) * ask' == bid'
    TimesSplit(r + 1.0, r, 1.0, ask);
    TimesSplit(r' + 1.0, r', 1.0, ask');
    assert Times(r + 1.0, ask) == bid && Times(r' + 1.0, ask') == bid';
    if r < r' {
      RatioPositive(r' + 1.0, ask');
      TimesMono(ask, ask', r' + 1.0);
      TimesStrict(r + 1.0, r' + 1.0, ask);
      hide Times;
      assert false;
    }
  }

  // The two linear picks are the best pair of the exhaustive search exactly when they are on
  // different venues.
  lemma PickIsBestIffVenuesDiffer(quotes: seq<Quote>)
    requires AllValid(quotes) && quotes != []
    ensures IsBest(quotes, LowestAsk(quotes), HighestBid(quotes)) <==>
      quotes[LowestAsk(quotes)].exchange != quotes[HighestBid(quotes)].exchange
  {
    var lo, hi := LowestAsk(quotes), HighestBid(quotes);
    forall k: nat, l: nat | CrossVenue(quotes, k, l)
      ensures SpreadPct(quotes[k].askPrice, quotes[l].bidPrice) <= SpreadPct(quotes[lo].askPrice, quotes[hi].bidPrice)
    {
      assert IsValid(quotes[k]) && IsValid(quotes[l]) && IsValid(quotes[lo]);
      SpreadMono(quotes[lo].askPrice, quotes[hi].bidPrice, quotes[k].askPrice, quotes[l].bidPrice);
    }
    hide SpreadPct;
  }

  // When no venue's own quote is crossed the linear pick misses nothing: if any venue bids above the
  // ask of another, the two picks are the best pair.
  lemma UncrossedPickIsBest(quotes: seq<Quote>, i: nat, j: nat)
    requires AllValid(quotes) && i < |quotes| && j < |quotes|
    requires forall k :: 0 <= k < |quotes| ==> quotes[k].bidPrice <= quotes[k].askPrice
    requires forall k, l :: 0 <= k < l < |quotes| ==> quotes[k].exchange != quotes[l].exchange
    requires quotes[j].bidPrice > quotes[i].askPrice
    ensures IsBest(quotes, LowestAsk(quotes), HighestBid(quotes))
  {
    PickIsBestIffVenuesDiffer(quotes);
    hide IsBest, AllValid;
    var lo, hi := LowestAsk(quotes), HighestBid(quotes);
    assert quotes[lo].askPrice < quotes[hi].bidPrice;
  }

  // ---------------------------------------------------------------------------------------------
  // One group
  // ---------------------------------------------------------------------------------------------

  // The quotes that pass a test, in order.
  function Kept(quotes: seq<Quote>, ok: Quote -> bool): (kept: seq<Quote>)
    ensures forall q :: q in kept <==> q in quotes && ok(q)
  {
    if quotes == [] then []
    else
      var rest := Kept(Front(quotes), ok);
      var q := Last(quotes);
      assert forall p :: p in quotes <==> p in Front(quotes) || p == q;
      if ok(q) then rest + [q] else rest
  }

  // Quote i is the first of the lowest asks among those that pass.
  predicate FirstLowestAsk(quotes: seq<Quote>, ok: Quote -> bool, i: nat) {
    && i < |quotes| && ok(quotes[i])
    && (forall k :: 0 <= k < |quotes| && ok(quotes[k]) ==> quotes[i].askPrice <= quotes[k].askPrice)
    && (forall k :: 0 <= k < i && ok(quotes[k]) ==> quotes[i].askPrice < quotes[k].askPrice)
  }

  predicate FirstHighestBid(quotes: seq<Quote>, ok: Quote -> bool, i: nat) {
    && i < |quotes| && ok(quotes[i])
    && (forall k :: 0 <= k < |quotes| && ok(quotes[k]) ==> quotes[k].bidPrice <= quotes[i].bidPrice)
    && (forall k :: 0 <= k < i && ok(quotes[k]) ==> quotes[k].bidPrice < quotes[i].bidPrice)
  }

  lemma PickAppends(rest: seq<Quote>, q: Quote)
    ensures var more := rest + [q];
      && more[LowestAsk(more)] == (
        if rest != [] && rest[LowestAsk(rest)].askPrice <= q.askPrice then rest[LowestAsk(rest)] else q)
      && more[HighestBid(more)] == (
        if rest != [] && q.bidPrice <= rest[HighestBid(rest)].bidPrice then rest[HighestBid(rest)] else q)
  {
    assert Front(rest + [q]) == rest && Last(rest + [q]) == q;
  }

  lemma KeptAppends(front: seq<Quote>, q: Quote, ok: Quote -> bool)
    ensures Kept(front + [q], ok) == if ok(q) then Kept(front, ok) + [q] else Kept(front, ok)
  {
    assert Front(front + [q]) == front && Last(front + [q]) == q;
  }

  lemma EarlierLowest(quotes: seq<Quote>, ok: Quote -> bool, i: nat)
    requires FirstLowestAsk(quotes, ok, i) && i < |quotes| - 1
    ensures var front, q := Front(quotes), quotes[|quotes| - 1];
      FirstLowestAsk(front, ok, i) && quotes[i] == front[i] && (ok(q) ==> quotes[i].askPrice <= q.askPrice)
  {}

  lemma LastLowest(quotes: seq<Quote>, ok: Quote -> bool)
    requires quotes != [] && FirstLowestAsk(quotes, ok, |quotes| - 1)
    ensures var kept, q := Kept(Front(quotes), ok), quotes[|quotes| - 1];
      ok(q) && (kept != [] ==> q.askPrice < kept[LowestAsk(kept)].askPrice)
  {
    var kept := Kept(Front(quotes), ok);
    hide Kept, LowestAsk, HighestBid;
    if kept != [] {
      var pick := kept[LowestAsk(kept)];
      assert pick in kept;
      var k :| 0 <= k < |quotes| - 1 && Front(quotes)[k] == pick;
      assert quotes[k] == pick;
    }
  }

  // It is the linear pick among them.
  lemma {:induction false} LowestOfKept(quotes: seq<Quote>, ok: Quote -> bool, i: nat)
    requires FirstLowestAsk(quotes, ok, i)
    ensures var kept := Kept(quotes, ok);
      kept != [] && kept[LowestAsk(kept)] == quotes[i]
  {
    assert i < |quotes|;
    hide Kept, LowestAsk, HighestBid, FirstLowestAsk;
    var front, q := Front(quotes), quotes[|quotes| - 1];
    var rest := Kept(front, ok);
    assert quotes == front + [q];
    KeptAppends(front, q, ok);
    PickAppends(rest, q);
    if i < |front| {
      EarlierLowest(quotes, ok, i);
      LowestOfKept(front, ok, i);
    } else {
      LastLowest(quotes, ok);
    }
  }

  lemma EarlierHighest(quotes: seq<Quote>, ok: Quote -> bool, i: nat)
    requires FirstHighestBid(quotes, ok, i) && i < |quotes| - 1
    ensures var front, q := Front(quotes), quotes[|quotes| - 1];
      FirstHighestBid(front, ok, i) && quotes[i] == front[i] && (ok(q) ==> q.bidPrice <= quotes[i].bidPrice)
  {}

  lemma LastHighest(quotes: seq<Quote>, ok: Quote -> bool)
    requires quotes != [] && FirstHighestBid(quotes, ok, |quotes| - 1)
    ensures var kept, q := Kept(Front(quotes), ok), quotes[|quotes| - 1];
      ok(q) && (kept != [] ==> kept[HighestBid(kept)].bidPrice < q.bidPrice)
  {
    var kept := Kept(Front(quotes), ok);
    hide Kept, LowestAsk, HighestBid;
    if kept != [] {
      var pick := kept[HighestBid(kept)];
      assert pick in kept;
      var k :| 0 <= k < |quotes| - 1 && Front(quotes)[k] == pick;
      assert quotes[k] == pick;
    }
  }

  lemma {:induction false} HighestOfKept(quotes: seq<Quote>, ok: Quote -> bool, i: nat)
    requires FirstHighestBid(quotes, ok, i)
    ensures var kept := Kept(quotes, ok);
      kept != [] && kept[HighestBid(kept)] == quotes[i]
  {
    assert i < |quotes|;
    hide Kept, LowestAsk, HighestBid, FirstHighestBid;
    var front, q := Front(quotes), quotes[|quotes| - 1];
    var rest := Kept(front, ok);
    assert quotes == front + [q];
    KeptAppends(front, q, ok);
    PickAppends(rest, q);
    if i < |front| {
      EarlierHighest(quotes, ok, i);
      HighestOfKept(front, ok, i);
    } else {
      LastHighest(quotes, ok);
    }
  }

  lemma {:induction false} NoneKept(quotes: seq<Quote>, ok: Quote -> bool)
    requires forall k :: 0 <= k < |quotes| ==> !ok(quotes[k])
    ensures Kept(quotes, ok) == []
  {
    if quotes != [] {
      NoneKept(Front(quotes), ok);
      assert !ok(quotes[|quotes| - 1]);
    }
  }

  // There is one whenever any quote passes.
  lemma {:induction false} SomeFirst(quotes: seq<Quote>, ok: Quote -> bool) returns (lo: nat, hi: nat)
    requires exists k :: 0 <= k < |quotes| && ok(quotes[k])
    ensures FirstLowestAsk(quotes, ok, lo) && FirstHighestBid(quotes, ok, hi)
  {
    var front, n := Front(quotes), |quotes| - 1;
    assert forall k :: 0 <= k < n ==> front[k] == quotes[k];
    if k :| 0 <= k < n && ok(quotes[k]) {
      assert ok(front[k]);
      lo, hi := SomeFirst(front, ok);
      if ok(quotes[n]) && quotes[n].askPrice < quotes[lo].askPrice {
        lo := n;
      }
      if ok(quotes[n]) && quotes[hi].bidPrice < quotes[n].bidPrice {
        hi := n;
      }
    } else {
      lo, hi := n, n;
    }
  }

  // Valid, with a bid side worth at least the minimum.
  predicate CanBeUsed(q: Quote, minLiquidity: real) {
    IsValid(q) && q.bidPrice * q.bidQty >= minLiquidity
  }

  function UsableAt(minLiquidity: real): Quote -> bool {
    (q: Quote) => CanBeUsed(q, minLiquidity)
  }

  // Usable are the quotes with both prices and both sizes above zero whose bid is worth the minimum.
  lemma UsableIff(q: Quote, minLiquidity: real)
    ensures UsableAt(minLiquidity)(q) <==>
      && 0.0 < q.bidPrice && 0.0 < q.askPrice && 0.0 < q.bidQty && 0.0 < q.askQty
      && minLiquidity <= Times(q.bidPrice, q.bidQty)
  {}

  function Usable(quotes: seq<Quote>, minLiquidity: real): (usable: seq<Quote>)
    ensures AllValid(usable)
    ensures forall q :: q in usable <==> q in quotes && CanBeUsed(q, minLiquidity)
  {
    var usable := Kept(quotes, UsableAt(minLiquidity));
    assert forall i :: 0 <= i < |usable| ==> usable[i] in usable;
    usable
  }

  // A missing or zero price falls back on the other one.
  function OrElse(a: Option<real>, b: Option<real>): Option<real> {
    if a.Some? && a.value != 0.0 then a else b
  }

  function PairEconomics(buy: Quote, sell: Quote, dte: real): Option<Economics> {
    Calculate(buy.askPrice, sell.bidPrice, Min(buy.askQty, sell.bidQty),
              Contract(buy.takerFee, sell.takerFee, OrElse(sell.spot, buy.spot), sell.strike, sell.optionType, dte))
  }

  function Compare(quotes: seq<Quote>, minLiquidity: real, now: int): Option<Spread> {
    var usable := Usable(quotes, minLiquidity);
    if |quotes| < 2 || |usable| < 2 then None
    else
      var buy := usable[LowestAsk(usable)];
      var sell := usable[HighestBid(usable)];
      var dte := DaysToExpiry(quotes[0].expiry, now);
      var econ := PairEconomics(buy, sell, dte);
      if buy.exchange == sell.exchange || econ.None? || econ.value.netProfit <= 0.0 then None
      else
        Some(Spread(quotes[0].name, buy.exchange, sell.exchange, quotes[0].expiry, dte, buy.askPrice, sell.bidPrice,
                    econ.value))
  }

  lemma SpreadOfPair(ask: real, bid: real, quantity: real, c: Contract)
    requires Calculate(ask, bid, quantity, c).Some?
    ensures 0.0 < ask && 0.0 < quantity
    ensures Calculate(ask, bid, quantity, c).value.priceSpreadPct == SpreadPct(ask, bid)
  {
    CalculateDefined(ask, bid, quantity, c);
    TimesSplit(bid, ask, bid - ask, quantity);
    ReturnPerUnit(bid - ask, ask, quantity);
    hide Times, SellMarginPerUnit;
  }

  // What is needed for a pair's figures, and for a profit after both fees.
  predicate Profitable(buy: Quote, sell: Quote, expiry: int, now: int) {
    var spot := OrElse(sell.spot, buy.spot);
    && spot.Some? && spot.value > 0.0 && sell.strike >= 0.0 && now < expiry
    && buy.takerFee >= 0.0 && sell.takerFee >= 0.0
    && Times(sell.bidPrice, 1.0 - sell.takerFee) > Times(buy.askPrice, 1.0 + buy.takerFee)
  }

  lemma SignOfProduct(x: real, y: real)
    requires 0.0 < y
    ensures 0.0 < Times(x, y) <==> 0.0 < x
  {
    if 0.0 < x {
      TimesPositive(x, y);
    } else {
      TimesMono(x, 0.0, y);
      TimesZero(y);
    }
  }

  // The pair earns, on the largest quantity both offer, what selling at the bid brings after the seller's
  // fee less what buying at the ask costs with the buyer's.
  lemma PairEarns(buy: Quote, sell: Quote, expiry: int, now: int)
    requires IsValid(buy) && IsValid(sell)
    ensures var econ := PairEconomics(buy, sell, DaysToExpiry(expiry, now));
      var size := if buy.askQty <= sell.bidQty then buy.askQty else sell.bidQty;
      && (econ.Some? && econ.value.netProfit > 0.0 <==> Profitable(buy, sell, expiry, now))
      && (econ.Some? ==>
            var spot := OrElse(sell.spot, buy.spot);
            && econ.value.tradeableSize == size
            && spot.Some? && spot.value > 0.0
            && econ.value.shortMargin == Times(SellMarginPerUnit(spot.value, sell.strike, sell.optionType), size)
            && econ.value.netProfit ==
               Times(Times(sell.bidPrice, 1.0 - sell.takerFee) - Times(buy.askPrice, 1.0 + buy.takerFee), size))
  {
    var dte := DaysToExpiry(expiry, now);
    var size := Min(buy.askQty, sell.bidQty);
    var c := Contract(buy.takerFee, sell.takerFee, OrElse(sell.spot, buy.spot), sell.strike, sell.optionType, dte);
    DaysCompare(expiry, now, 0.0);
    CalculateDefined(buy.askPrice, sell.bidPrice, size, c);
    if PairEconomics(buy, sell, dte).Some? {
      CalculatePerUnit(buy.askPrice, sell.bidPrice, size, c);
      CalculateReports(buy.askPrice, sell.bidPrice, size, c);
      SignOfProduct(UnitProfit(buy.askPrice, sell.bidPrice, c), size);
    }
    hide Times, Calculate, DaysToExpiry, SellMarginPerUnit;
  }

  lemma TwoMembers(quotes: seq<Quote>, a: Quote, b: Quote)
    requires a in quotes && b in quotes && a != b
    ensures |quotes| >= 2
  {
    var i :| 0 <= i < |quotes| && quotes[i] == a;
    var j :| 0 <= j < |quotes| && quotes[j] == b;
  }

  predicate OffersSpread(buy: Quote, sell: Quote, s: Spread) {
    && s.buyFrom == buy.exchange && s.buyAsk == buy.askPrice
    && s.sellTo == sell.exchange && s.sellBid == sell.bidPrice
    && s.econ.tradeableSize == (if buy.askQty <= sell.bidQty then buy.askQty else sell.bidQty)
    && s.econ.netProfit == Times(
         Times(sell.bidPrice, 1.0 - sell.takerFee) - Times(buy.askPrice, 1.0 + buy.takerFee), s.econ.tradeableSize)
    && 0.0 < buy.askPrice && s.econ.priceSpreadPct == SpreadPct(buy.askPrice, sell.bidPrice)
  }

  lemma PickOffers(quotes: seq<Quote>, minLiquidity: real, now: int)
    requires Compare(quotes, minLiquidity, now).Some?
    ensures var usable := Usable(quotes, minLiquidity);
      && |usable| >= 2
      && OffersSpread(usable[LowestAsk(usable)], usable[HighestBid(usable)], Compare(quotes, minLiquidity, now).value)
  {
    var usable := Usable(quotes, minLiquidity);
    var buy, sell := usable[LowestAsk(usable)], usable[HighestBid(usable)];
    SpreadOfPair(buy.askPrice, sell.bidPrice, Min(buy.askQty, sell.bidQty),
      Contract(buy.takerFee, sell.takerFee, OrElse(sell.spot, buy.spot), sell.strike, sell.optionType,
        DaysToExpiry(quotes[0].expiry, now)));
    PairEarns(buy, sell, quotes[0].expiry, now);
    hide Usable, LowestAsk, HighestBid, Times, SellMarginPerUnit, SpreadPct, DaysToExpiry, Profitable, Calculate;
  }

  // A spread is emitted exactly when the first of the lowest asks and the first of the highest bids among
  // the usable quotes are on different venues and trading them is profitable; it is that trade.
  lemma CompareIff(quotes: seq<Quote>, minLiquidity: real, now: int, lo: nat, hi: nat)
    requires FirstLowestAsk(quotes, UsableAt(minLiquidity), lo) && FirstHighestBid(quotes, UsableAt(minLiquidity), hi)
    ensures var buy, sell := quotes[lo], quotes[hi];
      var s := Compare(quotes, minLiquidity, now);
      && (s.Some? <==> buy.exchange != sell.exchange && Profitable(buy, sell, quotes[0].expiry, now))
      && (s.Some? ==>
            && s.value.instrument == quotes[0].name && s.value.expiry == quotes[0].expiry
            && s.value.daysToExpiry == DaysToExpiry(quotes[0].expiry, now)
            && OffersSpread(buy, sell, s.value))
  {
    LowestOfKept(quotes, UsableAt(minLiquidity), lo);
    HighestOfKept(quotes, UsableAt(minLiquidity), hi);
    var buy, sell := quotes[lo], quotes[hi];
    assert buy in quotes && sell in quotes && CanBeUsed(buy, minLiquidity) && CanBeUsed(sell, minLiquidity);
    PairEarns(buy, sell, quotes[0].expiry, now);
    var usable := Usable(quotes, minLiquidity);
    assert buy in usable && sell in usable;
    hide Kept, LowestAsk, HighestBid, PairEconomics, Profitable, DaysToExpiry, Usable, OffersSpread, CanBeUsed, Times;
    if buy.exchange != sell.exchange {
      TwoMembers(quotes, buy, sell);
      TwoMembers(usable, buy, sell);
    }
    if Compare(quotes, minLiquidity, now).Some? {
      PickOffers(quotes, minLiquidity, now);
    }
  }

  // Nothing is emitted when nothing is usable.
  lemma NothingUsable(quotes: seq<Quote>, minLiquidity: real, now: int)
    requires forall k :: 0 <= k < |quotes| ==> !CanBeUsed(quotes[k], minLiquidity)
    ensures Compare(quotes, minLiquidity, now) == None
  {
    NoneKept(quotes, UsableAt(minLiquidity));
  }

  // Whatever is emitted is profitable, crosses venues, and shows the widest price spread that the
  // exhaustive search finds on the same usable quotes.
  lemma EmittedIsWidest(quotes: seq<Quote>, minLiquidity: real, now: int, i: nat, j: nat)
    requires Compare(quotes, minLiquidity, now).Some?
    requires IsBest(Usable(quotes, minLiquidity), i, j)
    ensures var usable := Usable(quotes, minLiquidity);
      var s := Compare(quotes, minLiquidity, now).value;
      && s.econ.priceSpreadPct == SpreadPct(usable[i].askPrice, usable[j].bidPrice)
      && s.econ.netProfit > 0.0 && s.buyFrom != s.sellTo
  {
    var usable := Usable(quotes, minLiquidity);
    var lo, hi := LowestAsk(usable), HighestBid(usable);
    var buy, sell := usable[lo], usable[hi];
    PickIsBestIffVenuesDiffer(usable);
    SpreadOfPair(buy.askPrice, sell.bidPrice, Min(buy.askQty, sell.bidQty),
      Contract(buy.takerFee, sell.takerFee, OrElse(sell.spot, buy.spot), sell.strike, sell.optionType,
        DaysToExpiry(quotes[0].expiry, now)));
    hide SpreadPct, Calculate, LowestAsk, HighestBid, Usable;
    assert CrossVenue(usable, lo, hi) && CrossVenue(usable, i, j);
  }

  // No two usable quotes of different venues show a wider spread than an emitted one.
  lemma EmittedDominates(quotes: seq<Quote>, minLiquidity: real, now: int, k: Quote, l: Quote)
    requires Compare(quotes, minLiquidity, now).Some?
    requires k in Usable(quotes, minLiquidity) && l in Usable(quotes, minLiquidity) && k.exchange != l.exchange
    ensures IsValid(k)
    ensures SpreadPct(k.askPrice, l.bidPrice) <= Compare(quotes, minLiquidity, now).value.econ.priceSpreadPct
  {
    var usable := Usable(quotes, minLiquidity);
    var lo, hi := LowestAsk(usable), HighestBid(usable);
    PickIsBestIffVenuesDiffer(usable);
    hide SpreadPct, Usable, LowestAsk, HighestBid, PairEconomics;
    EmittedIsWidest(quotes, minLiquidity, now, lo, hi);
    var i :| 0 <= i < |usable| && usable[i] == k;
    var j :| 0 <= j < |usable| && usable[j] == l;
    assert CrossVenue(usable, i, j);
    hide Compare;
  }

  // An emitted spread buys and sells at quotes of the group's usable venues, in the largest quantity both
  // offer.
  lemma EmittedIsTradeable(quotes: seq<Quote>, minLiquidity: real, now: int)
    requires Compare(quotes, minLiquidity, now).Some?
    ensures var s := Compare(quotes, minLiquidity, now).value;
      exists buy, sell :: buy in Usable(quotes, minLiquidity) && sell in Usable(quotes, minLiquidity)
        && buy.exchange != sell.exchange && OffersSpread(buy, sell, s)
  {
    var usable := Usable(quotes, minLiquidity);
    PickOffers(quotes, minLiquidity, now);
    assert usable[LowestAsk(usable)] in usable && usable[HighestBid(usable)] in usable;
    hide Usable, LowestAsk, HighestBid, OffersSpread, PairEconomics;
    assert usable[LowestAsk(usable)].exchange != usable[HighestBid(usable)].exchange;
    hide Compare;
  }

  // Some venue sells for more than another one buys for.
  predicate CrossesTo(quotes: seq<Quote>, i: nat, j: nat) {
    CrossVenue(quotes, i, j) && quotes[i].askPrice > 0.0 && SpreadPct(quotes[i].askPrice, quotes[j].bidPrice) > 0.0
  }

  // Quote x is of another venue than the picks, and trades with one of them at a gain.
  predicate TradesWith(quotes: seq<Quote>, lo: nat, hi: nat, x: nat)
    requires lo < |quotes| && hi < |quotes|
  {
    && x < |quotes| && quotes[x].exchange != quotes[lo].exchange
    && (quotes[x].bidPrice > quotes[lo].askPrice || quotes[x].askPrice < quotes[hi].bidPrice)
  }

  lemma SpreadSign(ask: real, bid: real)
    requires 0.0 < ask
    ensures SpreadPct(ask, bid) > 0.0 <==> bid > ask
  {
    var r := (bid - ask) / ask;
    DivMul(bid - ask, ask);
    if r > 0.0 {
      MulPositive(r, ask);
    } else {
      MulMono(r, 0.0, ask);
    }
  }

  lemma CrossingVenues(quotes: seq<Quote>, i: nat, j: nat)
    requires CrossesTo(quotes, i, j)
    ensures CrossVenue(quotes, i, j)
  {}

  // When one venue has both the lowest ask and the highest bid nothing is emitted, and that hides a
  // positive spread exactly when another venue bids above that ask or asks below that bid.
  lemma SilenceHidesASpreadIff(group: seq<Quote>, usable: seq<Quote>, minLiquidity: real, now: int)
    requires AllValid(usable) && usable != []
    requires usable[LowestAsk(usable)].exchange == usable[HighestBid(usable)].exchange
    ensures usable == Usable(group, minLiquidity) ==> Compare(group, minLiquidity, now) == None
    ensures (exists i: nat, j: nat :: CrossesTo(usable, i, j)) <==>
      (exists x: nat :: TradesWith(usable, LowestAsk(usable), HighestBid(usable), x))
  {
    var lo, hi := LowestAsk(usable), HighestBid(usable);
    forall i: nat, j: nat | CrossVenue(usable, i, j)
      ensures usable[i].askPrice > 0.0 && (CrossesTo(usable, i, j) <==> usable[j].bidPrice > usable[i].askPrice)
    {
      AskIsPositive(usable, i);
      SpreadSign(usable[i].askPrice, usable[j].bidPrice);
    }
    hide Usable, LowestAsk, HighestBid, PairEconomics, SpreadPct, CrossesTo;
    if i: nat, j: nat :| CrossesTo(usable, i, j) {
      assert CrossVenue(usable, i, j) by { CrossingVenues(usable, i, j); }
      assert TradesWith(usable, lo, hi, if usable[j].exchange != usable[lo].exchange then j else i);
    }
    if x: nat :| TradesWith(usable, lo, hi, x) {
      if usable[x].bidPrice > usable[lo].askPrice {
        assert CrossVenue(usable, lo, x);
      } else {
        assert CrossVenue(usable, x, hi);
      }
    }
  }

  lemma LaterExpires(expiry: int, now: int)
    requires expiry > now
    ensures DaysToExpiry(expiry, now) > 0.0
  {
    DivMul((expiry - now) as real, MICROSECONDS_PER_DAY);
  }

  lemma PairTrades(buy: Quote, sell: Quote, now: int)
    requires buy.askPrice == 100.0 && buy.askQty == 1.0 && sell.bidPrice == 120.0 && sell.bidQty == 1.0
    requires buy.takerFee == sell.takerFee == 0.0 && sell.spot == Some(1000.0) && sell.strike == 1000.0
    requires buy.expiry > now
    ensures var econ := PairEconomics(buy, sell, DaysToExpiry(buy.expiry, now));
      econ.Some? && econ.value.netProfit == 20.0
  {
    var dte := DaysToExpiry(buy.expiry, now);
    var c := Contract(0.0, 0.0, Some(1000.0), 1000.0, sell.optionType, dte);
    LaterExpires(buy.expiry, now);
    CalculateDefined(100.0, 120.0, 1.0, c);
    CalculatePerUnit(100.0, 120.0, 1.0, c);
    hide Calculate, DaysToExpiry, SellMarginPerUnit;
  }

  lemma BothUsable(p: Quote, q: Quote)
    requires IsValid(p) && IsValid(q)
    ensures Usable([p, q], 0.0) == [p, q]
  {
    assert Front([p]) == [] && Front([p, q]) == [p];
    MulPositive(p.bidPrice, p.bidQty);
    MulPositive(q.bidPrice, q.bidQty);
    var ok := UsableAt(0.0);
    assert ok(p) && ok(q);
    assert Kept([p], ok) == Kept([], ok) + [p] && Kept([p, q], ok) == Kept([p], ok) + [q];
  }

  // One venue quoting a crossed market silences the group, though buying there and selling at the
  // other venue nets 20 a contract.
  lemma SilentOnOneVenue(c: Quote, now: int)
    requires c.exchange == "a" && c.bidPrice == 130.0 && c.askPrice == 100.0 && c.bidQty == 1.0 && c.askQty == 1.0
    requires c.takerFee == 0.0 && c.spot == Some(1000.0) && c.strike == 1000.0 && c.expiry > now
    ensures var other := c.(exchange := "b", bidPrice := 120.0, askPrice := 125.0);
      && Compare([c, other], 0.0, now) == None
      && Usable([c, other], 0.0) == [c, other] && CrossVenue([c, other], 0, 1)
      && var econ := PairEconomics(c, other, DaysToExpiry(c.expiry, now));
      econ.Some? && econ.value.netProfit == 20.0
  {
    var other := c.(exchange := "b", bidPrice := 120.0, askPrice := 125.0);
    BothUsable(c, other);
    PairTrades(c, other, now);
    hide Usable, PairEconomics, LowestAsk, HighestBid;
    var quotes := [c, other];
    assert quotes[LowestAsk(quotes)] == c == quotes[HighestBid(quotes)];
  }

  // ---------------------------------------------------------------------------------------------
  // All groups
  // ---------------------------------------------------------------------------------------------

  function Names(quotes: seq<Quote>): set<string> {
    set q | q in quotes :: q.name
  }

  predicate OneName(quotes: seq<Quote>) {
    forall i, j :: 0 <= i < j < |quotes| ==> quotes[i].name == quotes[j].name
  }

  // What comparing the groups yields, in order.
  function Spreads(groups: seq<seq<Quote>>, minLiquidity: real, now: int): seq<Spread> {
    if groups == [] then []
    else
      var s := Compare(Last(groups), minLiquidity, now);
      Spreads(Front(groups), minLiquidity, now) + if s.Some? then [s.value] else []
  }

  lemma SubsetSmaller(a: set<string>, b: set<string>)
    requires a <= b
    ensures |a| <= |b|
  {
    assert b == a + (b - a);
  }

  lemma NamesAgree(quotes: seq<Quote>)
    requires quotes != []
    ensures |Names(quotes)| <= 1 <==> OneName(quotes)
  {
    var names := Names(quotes);
    assert quotes[0].name in names;
    if OneName(quotes) {
      assert names == {quotes[0].name};
    } else {
      var i, j :| 0 <= i < j < |quotes| && quotes[i].name != quotes[j].name;
      assert {quotes[i].name, quotes[j].name} <= names;
      SubsetSmaller({quotes[i].name, quotes[j].name}, names);
    }
  }

  // Raises exactly when a group of two or more quotes mixes instruments, with the names of the first.
  method CompareOptions(groups: seq<seq<Quote>>, minLiquidity: real, now: int)
    returns (result: Result<seq<Spread>, Mismatch>)
    ensures result.Ok? <==> forall g :: g in groups && |g| >= 2 ==> OneName(g)
    ensures result.Ok? ==> result.value == Spreads(groups, minLiquidity, now)
    ensures result.Err? ==> exists i :: (
      && 0 <= i < |groups| && |groups[i]| >= 2 && !OneName(groups[i]) && result.error.names == Names(groups[i])
      && forall k :: 0 <= k < i && |groups[k]| >= 2 ==> OneName(groups[k]))
  {
    hide Usable, PairEconomics, OneName, Names, LowestAsk, HighestBid, DaysToExpiry;
    var found: seq<Spread> := [];
    for i := 0 to |groups|
      invariant forall k :: 0 <= k < i && |groups[k]| >= 2 ==> OneName(groups[k])
      invariant found == Spreads(groups[..i], minLiquidity, now)
    {
      var quotes := groups[i];
      assert Front(groups[..i + 1]) == groups[..i] && Last(groups[..i + 1]) == quotes;
      if |quotes| < 2 {
        continue;
      }
      var names := Names(quotes);
      NamesAgree(quotes);
      if |names| > 1 {
        assert quotes in groups;
        return Err(Mismatch(names));
      }
      var usable := Usable(quotes, minLiquidity);
      if |usable| < 2 {
        continue;
      }
      var buy := usable[LowestAsk(usable)];
      var sell := usable[HighestBid(usable)];
      if buy.exchange == sell.exchange {
        continue;
      }
      var dte := DaysToExpiry(quotes[0].expiry, now);
      var econ := PairEconomics(buy, sell, dte);
      if econ.None? || econ.value.netProfit <= 0.0 {
        continue;
      }
      found := found + [Spread(quotes[0].name, buy.exchange, sell.exchange, quotes[0].expiry, dte,
                               buy.askPrice, sell.bidPrice, econ.value)];
    }
    assert groups[..|groups|] == groups;
    return Ok(found);
  }
}

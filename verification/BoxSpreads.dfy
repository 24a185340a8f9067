// Box detection (backend/src/option_arb/structured/strategies/box.py).
//
// A box buys the call and sells the put at a low strike, sells the call and buys the put at a high
// one.  Whatever the settlement price it pays the distance between the strikes.
module BoxSpreads {
  import opened OptionEconomics
  import opened Quotes
  import opened RealArithmetic
  import opened StableSorting
  import opened Wrappers

  datatype Thresholds = Thresholds(minPerUnit: real, minTotal: real, maxDaysToExpiry: real)

  datatype Group = Group(underlying: string, expiry: int, quotes: seq<Quote>)

  datatype Box = Box(
    underlying: string,
    expiry: int,
    k1: real,
    k2: real,
    longC1: Quote,
    shortP1: Quote,
    shortC2: Quote,
    longP2: Quote,
    isFixedPayoff: bool,
    settlementRisk: bool,
    entryCost: real,
    maxFees: real,
    minProfitPerUnit: real,
    maxSize: real,
    capitalRequired: real,
    maxTotalProfit: real,
    spot: Option<real>)

  // ---------------------------------------------------------------------------------------------
  // Quotes of one strike and type
  // ---------------------------------------------------------------------------------------------

  predicate OnOffer(q: Quote, strike: real, optionType: OptionType) {
    IsValid(q) && q.strike == strike && q.optionType == optionType
  }

  function OfferedAt(strike: real, optionType: OptionType): Quote -> bool {
    (q: Quote) => OnOffer(q, strike, optionType)
  }

  // On offer are the quotes of the strike and type with both prices and both sizes above zero.
  lemma OfferedIff(q: Quote, strike: real, optionType: OptionType)
    ensures OfferedAt(strike, optionType)(q) <==>
      && q.strike == strike && q.optionType == optionType
      && 0.0 < q.bidPrice && 0.0 < q.askPrice && 0.0 < q.bidQty && 0.0 < q.askQty
  {}

  function Quoted(quotes: seq<Quote>, strike: real, optionType: OptionType): (r: seq<Quote>)
    ensures AllValid(r)
    ensures forall q :: q in r <==> q in quotes && OnOffer(q, strike, optionType)
  {
    var r := Kept(quotes, OfferedAt(strike, optionType));
    assert forall i :: 0 <= i < |r| ==> r[i] in r;
    r
  }

  function BestAsk(quotes: seq<Quote>): Option<Quote> {
    if quotes == [] then None else Some(quotes[LowestAsk(quotes)])
  }

  function BestBid(quotes: seq<Quote>): Option<Quote> {
    if quotes == [] then None else Some(quotes[HighestBid(quotes)])
  }

  function FirstGiven(prices: seq<Option<real>>): Option<real>
    requires prices != []
  {
    if |prices| == 1 then prices[0] else OrElse(prices[0], FirstGiven(prices[1..]))
  }

  // Coin-settled venues; every other one settles in dollars.
  predicate Inverse(exchange: string) {
    exchange == "deribit"
  }

  function Classes(exchanges: set<string>): set<bool> {
    set e | e in exchanges :: Inverse(e)
  }

  // ---------------------------------------------------------------------------------------------
  // One pair of strikes
  // ---------------------------------------------------------------------------------------------

  function EntryCost(c1: Quote, p1: Quote, c2: Quote, p2: Quote): real {
    c1.askPrice + p2.askPrice - c2.bidPrice - p1.bidPrice
  }

  function Fees(c1: Quote, p1: Quote, c2: Quote, p2: Quote): real {
    Times(c1.askPrice, c1.takerFee) + Times(p2.askPrice, p2.takerFee)
    + Times(c2.bidPrice, c2.takerFee) + Times(p1.bidPrice, p1.takerFee)
  }

  function Build(g: Group, k1: real, k2: real, c1: Quote, p1: Quote, c2: Quote, p2: Quote): Box {
    var cost := EntryCost(c1, p1, c2, p2);
    var fees := Fees(c1, p1, c2, p2);
    var perUnit := k2 - k1 - cost - fees;
    var size := Min(Min(Min(c1.askQty, p2.askQty), c2.bidQty), p1.bidQty);
    var exchanges := {c1.exchange, p1.exchange, c2.exchange, p2.exchange};
    Box(g.underlying, g.expiry, k1, k2, c1, p1, c2, p2,
        |exchanges| == 1, |Classes(exchanges)| > 1,
        cost, fees, perUnit, size, Times(Max(cost, 0.0), size), Times(perUnit, size),
        FirstGiven([c1.spot, p1.spot, c2.spot, p2.spot]))
  }

  function TryBox(g: Group, k1: real, k2: real, t: Thresholds): Option<Box> {
    var c1, p2 := BestAsk(Quoted(g.quotes, k1, Call)), BestAsk(Quoted(g.quotes, k2, Put));
    var c2, p1 := BestBid(Quoted(g.quotes, k2, Call)), BestBid(Quoted(g.quotes, k1, Put));
    if c1.None? || p2.None? || c2.None? || p1.None? then None
    else
      var box := Build(g, k1, k2, c1.value, p1.value, c2.value, p2.value);
      if box.minProfitPerUnit <= t.minPerUnit || box.maxTotalProfit < t.minTotal then None else Some(box)
  }

  // The legs are valid quotes of the group at the right strikes and types.
  predicate Legs(g: Group, k1: real, k2: real, c1: Quote, p1: Quote, c2: Quote, p2: Quote) {
    && c1 in Quoted(g.quotes, k1, Call) && p1 in Quoted(g.quotes, k1, Put)
    && c2 in Quoted(g.quotes, k2, Call) && p2 in Quoted(g.quotes, k2, Put)
  }

  lemma EmittedLegs(g: Group, k1: real, k2: real, t: Thresholds)
    requires TryBox(g, k1, k2, t).Some?
    ensures var b := TryBox(g, k1, k2, t).value;
      && Legs(g, k1, k2, b.longC1, b.shortP1, b.shortC2, b.longP2)
      && b == Build(g, k1, k2, b.longC1, b.shortP1, b.shortC2, b.longP2)
      && b.minProfitPerUnit > t.minPerUnit && b.maxTotalProfit >= t.minTotal
  {
    hide Quoted, EntryCost, Fees, Times, FirstGiven, Min, Max;
  }

  // Four quotes of a group: the first of the lowest asks for the legs to buy and of the highest bids for
  // the legs to sell, each among the valid quotes of its strike and type.
  predicate Picked(quotes: seq<Quote>, k1: real, k2: real, c1: nat, p1: nat, c2: nat, p2: nat) {
    && FirstLowestAsk(quotes, OfferedAt(k1, Call), c1) && FirstHighestBid(quotes, OfferedAt(k1, Put), p1)
    && FirstHighestBid(quotes, OfferedAt(k2, Call), c2) && FirstLowestAsk(quotes, OfferedAt(k2, Put), p2)
  }

  // What one unit locks in: the width, less what the bought legs cost and plus what the sold legs bring,
  // each after its own fee.
  function Edge(k1: real, k2: real, c1: Quote, p1: Quote, c2: Quote, p2: Quote): real {
    k2 - k1 - Times(c1.askPrice, 1.0 + c1.takerFee) - Times(p2.askPrice, 1.0 + p2.takerFee)
    + Times(c2.bidPrice, 1.0 - c2.takerFee) + Times(p1.bidPrice, 1.0 - p1.takerFee)
  }

  // The least of the four sizes.
  predicate LeastSize(size: real, c1: Quote, p1: Quote, c2: Quote, p2: Quote) {
    && size <= c1.askQty && size <= p2.askQty && size <= c2.bidQty && size <= p1.bidQty
    && (size == c1.askQty || size == p2.askQty || size == c2.bidQty || size == p1.bidQty)
  }

  lemma WithFee(price: real, fee: real)
    ensures Times(price, 1.0 + fee) == price + Times(price, fee)
    ensures Times(price, 1.0 - fee) == price - Times(price, fee)
  {}

  lemma BuildHasEdge(g: Group, k1: real, k2: real, c1: Quote, p1: Quote, c2: Quote, p2: Quote)
    ensures var b := Build(g, k1, k2, c1, p1, c2, p2);
      && b.minProfitPerUnit == Edge(k1, k2, c1, p1, c2, p2) && LeastSize(b.maxSize, c1, p1, c2, p2)
      && b.maxTotalProfit == Times(b.minProfitPerUnit, b.maxSize)
      && b.entryCost + b.maxFees + b.minProfitPerUnit == k2 - k1
      && b.entryCost == c1.askPrice + p2.askPrice - c2.bidPrice - p1.bidPrice
      && b.capitalRequired == (if b.entryCost > 0.0 then Times(b.entryCost, b.maxSize) else 0.0)
  {
    WithFee(c1.askPrice, c1.takerFee);
    WithFee(p2.askPrice, p2.takerFee);
    WithFee(c2.bidPrice, c2.takerFee);
    WithFee(p1.bidPrice, p1.takerFee);
    var b := Build(g, k1, k2, c1, p1, c2, p2);
    TimesZero(b.maxSize);
    hide Times, FirstGiven, Classes;
  }

  // The spot price of a box is the first that one of its quotes gives, in the order of its legs.
  lemma BuildSpot(g: Group, k1: real, k2: real, c1: Quote, p1: Quote, c2: Quote, p2: Quote)
    ensures Build(g, k1, k2, c1, p1, c2, p2).spot ==
      if c1.spot.Some? && c1.spot.value != 0.0 then c1.spot
      else if p1.spot.Some? && p1.spot.value != 0.0 then p1.spot
      else if c2.spot.Some? && c2.spot.value != 0.0 then c2.spot
      else p2.spot
  {
    var spots := [c1.spot, p1.spot, c2.spot, p2.spot];
    assert spots[1..] == [p1.spot, c2.spot, p2.spot] && spots[1..][1..] == [c2.spot, p2.spot]
      && spots[1..][1..][1..] == [p2.spot];
    assert FirstGiven([p2.spot]) == p2.spot;
    assert FirstGiven([c2.spot, p2.spot]) == OrElse(c2.spot, p2.spot);
    assert FirstGiven([p1.spot, c2.spot, p2.spot]) == OrElse(p1.spot, OrElse(c2.spot, p2.spot));
    hide EntryCost, Fees, Times, Classes, Min, Max;
  }

  // Thresholds met: the edge above the one per unit, and over the size at least the total.
  predicate Worth(edge: real, size: real, t: Thresholds) {
    edge > t.minPerUnit && Times(edge, size) >= t.minTotal
  }

  // A box is emitted exactly when all four legs are on offer and the edge of their picks meets the
  // thresholds over the least of their sizes; it has those legs.
  lemma TryBoxIff(g: Group, k1: real, k2: real, t: Thresholds, c1: nat, p1: nat, c2: nat, p2: nat, size: real)
    requires Picked(g.quotes, k1, k2, c1, p1, c2, p2)
    requires LeastSize(size, g.quotes[c1], g.quotes[p1], g.quotes[c2], g.quotes[p2])
    ensures var q, box := g.quotes, TryBox(g, k1, k2, t);
      && (box.Some? <==> Worth(Edge(k1, k2, q[c1], q[p1], q[c2], q[p2]), size, t))
      && (box.Some? ==> box.value == Build(g, k1, k2, q[c1], q[p1], q[c2], q[p2]) && box.value.maxSize == size)
  {
    LowestOfKept(g.quotes, OfferedAt(k1, Call), c1);
    HighestOfKept(g.quotes, OfferedAt(k1, Put), p1);
    HighestOfKept(g.quotes, OfferedAt(k2, Call), c2);
    LowestOfKept(g.quotes, OfferedAt(k2, Put), p2);
    var q := g.quotes;
    BuildHasEdge(g, k1, k2, q[c1], q[p1], q[c2], q[p2]);
    hide Kept, LowestAsk, HighestBid, FirstLowestAsk, FirstHighestBid, Build, Edge, Times;
  }

  lemma NoLegNoBox(g: Group, k1: real, k2: real, t: Thresholds)
    requires TryBox(g, k1, k2, t).Some?
    ensures exists i :: 0 <= i < |g.quotes| && OfferedAt(k1, Call)(g.quotes[i])
    ensures exists i :: 0 <= i < |g.quotes| && OfferedAt(k1, Put)(g.quotes[i])
    ensures exists i :: 0 <= i < |g.quotes| && OfferedAt(k2, Call)(g.quotes[i])
    ensures exists i :: 0 <= i < |g.quotes| && OfferedAt(k2, Put)(g.quotes[i])
  {
    EmittedLegs(g, k1, k2, t);
    hide TryBox, Quoted, OnOffer;
  }

  // The size is the largest that every leg offers.
  lemma SizeIsAvailable(g: Group, k1: real, k2: real, t: Thresholds, size: real)
    requires TryBox(g, k1, k2, t).Some?
    ensures var b := TryBox(g, k1, k2, t).value;
      size <= b.maxSize <==>
      size <= b.longC1.askQty && size <= b.longP2.askQty && size <= b.shortC2.bidQty && size <= b.shortP1.bidQty
  {
    EmittedLegs(g, k1, k2, t);
    hide TryBox, Legs, EntryCost, Fees, Times;
  }

  lemma OneElement<T>(s: set<T>, x: T)
    requires x in s
    ensures |s| >= 1
    ensures |s| == 1 <==> s == {x}
  {
    assert s == {x} + (s - {x});
  }

  lemma OneVenue(a: string, b: string, c: string, d: string)
    ensures |{a, b, c, d}| == 1 <==> a == b == c == d
  {
    OneElement({a, b, c, d}, a);
    assert b in {a, b, c, d} && c in {a, b, c, d} && d in {a, b, c, d};
  }

  lemma OneClass(a: string, b: string, c: string, d: string)
    ensures |Classes({a, b, c, d})| > 1 <==> !(Inverse(a) == Inverse(b) == Inverse(c) == Inverse(d))
  {
    hide Inverse;
    var classes := Classes({a, b, c, d});
    assert Inverse(a) in classes && Inverse(b) in classes && Inverse(c) in classes && Inverse(d) in classes;
    OneElement(classes, Inverse(a));
  }

  // The payoff is certain on one venue only, and at risk where a leg on the coin-settled venue meets one
  // on another.
  lemma FlagsTellVenues(g: Group, k1: real, k2: real, t: Thresholds)
    requires TryBox(g, k1, k2, t).Some?
    ensures var b := TryBox(g, k1, k2, t).value;
      var venues := [b.longC1.exchange, b.shortP1.exchange, b.shortC2.exchange, b.longP2.exchange];
      && (b.isFixedPayoff <==> venues[0] == venues[1] == venues[2] == venues[3])
      && (b.settlementRisk <==> "deribit" in venues && exists venue :: venue in venues && venue != "deribit")
  {
    EmittedLegs(g, k1, k2, t);
    var b := TryBox(g, k1, k2, t).value;
    hide TryBox, Legs, EntryCost, Fees, Times, Min, FirstGiven, Classes;
    OneVenue(b.longC1.exchange, b.shortP1.exchange, b.shortC2.exchange, b.longP2.exchange);
    OneClass(b.longC1.exchange, b.shortP1.exchange, b.shortC2.exchange, b.longP2.exchange);
    var venues := [b.longC1.exchange, b.shortP1.exchange, b.shortC2.exchange, b.longP2.exchange];
    assert venues[0] in venues && venues[1] in venues && venues[2] in venues && venues[3] in venues;
  }

  // ---------------------------------------------------------------------------------------------
  // Locked at every settlement price
  // ---------------------------------------------------------------------------------------------

  function Payoff(q: Quote, settlement: real): real {
    if q.optionType == Call then Max(settlement - q.strike, 0.0) else Max(q.strike - settlement, 0.0)
  }

  // What one unit of a leg nets when held to expiry, its taker fee included.
  function BoughtNet(q: Quote, settlement: real): real {
    Payoff(q, settlement) - q.askPrice - Times(q.askPrice, q.takerFee)
  }

  function SoldNet(q: Quote, settlement: real): real {
    q.bidPrice - Payoff(q, settlement) - Times(q.bidPrice, q.takerFee)
  }

  function NetAtExpiry(b: Box, size: real, settlement: real): real {
    Times(BoughtNet(b.longC1, settlement), size) + Times(SoldNet(b.shortP1, settlement), size)
    + Times(SoldNet(b.shortC2, settlement), size) + Times(BoughtNet(b.longP2, settlement), size)
  }

  lemma SumOfFour(a: real, b: real, c: real, d: real, k: real)
    ensures Times(a, k) + Times(b, k) + Times(c, k) + Times(d, k) == Times(a + b + c + d, k)
  {
    TimesSplit(a + b, a, b, k);
    TimesSplit(a + b + c, a + b, c, k);
    TimesSplit(a + b + c + d, a + b + c, d, k);
    hide Times;
  }

  lemma LegsNetTheEdge(g: Group, k1: real, k2: real, c1: Quote, p1: Quote, c2: Quote, p2: Quote, settlement: real)
    requires Legs(g, k1, k2, c1, p1, c2, p2)
    ensures BoughtNet(c1, settlement) + SoldNet(p1, settlement) + SoldNet(c2, settlement) + BoughtNet(p2, settlement)
         == Build(g, k1, k2, c1, p1, c2, p2).minProfitPerUnit
  {
    hide Times, Quoted;
  }

  lemma EdgeOverSize(b: Box, size: real, settlement: real)
    ensures NetAtExpiry(b, size, settlement) ==
      Times(BoughtNet(b.longC1, settlement) + SoldNet(b.shortP1, settlement) + SoldNet(b.shortC2, settlement)
            + BoughtNet(b.longP2, settlement), size)
  {
    hide Times, BoughtNet, SoldNet;
    SumOfFour(BoughtNet(b.longC1, settlement), SoldNet(b.shortP1, settlement), SoldNet(b.shortC2, settlement),
      BoughtNet(b.longP2, settlement), size);
  }

  // Held to expiry, an emitted box nets its reported edge on every unit, whatever the settlement
  // price, and what it reports as its total profit at its full size.
  lemma BoxIsLocked(g: Group, k1: real, k2: real, t: Thresholds, size: real, settlement: real)
    requires TryBox(g, k1, k2, t).Some?
    ensures var b := TryBox(g, k1, k2, t).value;
      && NetAtExpiry(b, size, settlement) == Times(b.minProfitPerUnit, size)
      && NetAtExpiry(b, b.maxSize, settlement) == b.maxTotalProfit
  {
    EmittedLegs(g, k1, k2, t);
    var b := TryBox(g, k1, k2, t).value;
    LegsNetTheEdge(g, k1, k2, b.longC1, b.shortP1, b.shortC2, b.longP2, settlement);
    EdgeOverSize(b, size, settlement);
    EdgeOverSize(b, b.maxSize, settlement);
    hide TryBox, Legs, Times, BoughtNet, SoldNet, NetAtExpiry;
  }

  // ---------------------------------------------------------------------------------------------
  // Cheapest entry
  // ---------------------------------------------------------------------------------------------

  lemma BestQuotes(quotes: seq<Quote>, q: Quote)
    requires q in quotes
    ensures BestAsk(quotes).Some? && BestAsk(quotes).value.askPrice <= q.askPrice
    ensures BestBid(quotes).Some? && q.bidPrice <= BestBid(quotes).value.bidPrice
    ensures BestAsk(quotes).value in quotes && BestBid(quotes).value in quotes
  {
    var i :| 0 <= i < |quotes| && quotes[i] == q;
    assert quotes[LowestAsk(quotes)].askPrice <= quotes[i].askPrice;
    assert quotes[i].bidPrice <= quotes[HighestBid(quotes)].bidPrice;
  }

  // No other choice of venues enters cheaper.
  lemma EntryIsCheapest(g: Group, k1: real, k2: real, t: Thresholds, c1: Quote, p1: Quote, c2: Quote, p2: Quote)
    requires TryBox(g, k1, k2, t).Some? && Legs(g, k1, k2, c1, p1, c2, p2)
    ensures TryBox(g, k1, k2, t).value.entryCost <= EntryCost(c1, p1, c2, p2)
  {
    BestQuotes(Quoted(g.quotes, k1, Call), c1);
    BestQuotes(Quoted(g.quotes, k1, Put), p1);
    BestQuotes(Quoted(g.quotes, k2, Call), c2);
    BestQuotes(Quoted(g.quotes, k2, Put), p2);
    hide Quoted, BestAsk, BestBid, Times;
  }

  // A higher bid brings more even after its larger fee.
  lemma NetOfFee(low: real, high: real, fee: real)
    requires low <= high && fee <= 1.0
    ensures low - Times(low, fee) <= high - Times(high, fee)
  {
    TimesMono(low, high, 1.0 - fee);
    TimesSplit(1.0, fee, 1.0 - fee, low);
    TimesSplit(1.0, fee, 1.0 - fee, high);
    assert Times(low, 1.0) == low && Times(high, 1.0) == high;
    hide Times;
  }

  // Where all venues charge one fee rate, no other choice of venues has a larger edge either.
  lemma EdgeIsLargestUnderOneFee(g: Group, k1: real, k2: real, fee: real, c1: Quote, p1: Quote, c2: Quote, p2: Quote)
    requires 0.0 <= fee <= 1.0 && (forall q :: q in g.quotes && IsValid(q) ==> q.takerFee == fee)
    requires Legs(g, k1, k2, c1, p1, c2, p2)
    ensures var b1, b2 := BestAsk(Quoted(g.quotes, k1, Call)), BestBid(Quoted(g.quotes, k1, Put));
      var b3, b4 := BestBid(Quoted(g.quotes, k2, Call)), BestAsk(Quoted(g.quotes, k2, Put));
      && b1.Some? && b2.Some? && b3.Some? && b4.Some?
      && Build(g, k1, k2, c1, p1, c2, p2).minProfitPerUnit
         <= Build(g, k1, k2, b1.value, b2.value, b3.value, b4.value).minProfitPerUnit
  {
    BestQuotes(Quoted(g.quotes, k1, Call), c1);
    BestQuotes(Quoted(g.quotes, k1, Put), p1);
    BestQuotes(Quoted(g.quotes, k2, Call), c2);
    BestQuotes(Quoted(g.quotes, k2, Put), p2);
    var b1, b2 := BestAsk(Quoted(g.quotes, k1, Call)).value, BestBid(Quoted(g.quotes, k1, Put)).value;
    var b3, b4 := BestBid(Quoted(g.quotes, k2, Call)).value, BestAsk(Quoted(g.quotes, k2, Put)).value;
    hide Quoted, BestAsk, BestBid;
    TimesMono(b1.askPrice, c1.askPrice, fee);
    TimesMono(b4.askPrice, p2.askPrice, fee);
    NetOfFee(p1.bidPrice, b2.bidPrice, fee);
    NetOfFee(c2.bidPrice, b3.bidPrice, fee);
    hide Times;
  }

  // ---------------------------------------------------------------------------------------------
  // No false alarms
  // ---------------------------------------------------------------------------------------------

  // Fair prices that respect put-call parity around a forward price.
  ghost predicate Parity(fair: (real, OptionType) -> real, forward: real) {
    forall k: real :: fair(k, Call) - fair(k, Put) == forward - k
  }

  predicate Inside(quotes: seq<Quote>, fair: (real, OptionType) -> real) {
    forall q :: q in quotes && IsValid(q) ==> q.bidPrice <= fair(q.strike, q.optionType) <= q.askPrice
  }

  lemma FeeNonNegative(price: real, fee: real)
    requires 0.0 < price && 0.0 <= fee
    ensures 0.0 <= Times(price, fee)
  {
    TimesMono(0.0, price, fee);
    TimesZero(fee);
  }

  // When some parity-consistent prices lie inside all valid quotes there is no box to be found.
  lemma NoBoxUnderParity(g: Group, k1: real, k2: real, t: Thresholds, fair: (real, OptionType) -> real, forward: real)
    requires Parity(fair, forward) && Inside(g.quotes, fair)
    requires t.minPerUnit >= 0.0 && (forall q :: q in g.quotes && IsValid(q) ==> q.takerFee >= 0.0)
    ensures TryBox(g, k1, k2, t) == None
  {
    if TryBox(g, k1, k2, t).Some? {
      EmittedLegs(g, k1, k2, t);
      var b := TryBox(g, k1, k2, t).value;
      hide TryBox, Quoted;
      assert fair(k1, Call) - fair(k1, Put) == forward - k1;
      assert fair(k2, Call) - fair(k2, Put) == forward - k2;
      FeeNonNegative(b.longC1.askPrice, b.longC1.takerFee);
      FeeNonNegative(b.longP2.askPrice, b.longP2.takerFee);
      FeeNonNegative(b.shortC2.bidPrice, b.shortC2.takerFee);
      FeeNonNegative(b.shortP1.bidPrice, b.shortP1.takerFee);
      hide Times;
    }
  }

  // ---------------------------------------------------------------------------------------------
  // All pairs of strikes
  // ---------------------------------------------------------------------------------------------

  predicate StrictlyAscending(s: seq<real>) {
    forall i, j :: 0 <= i < j < |s| ==> s[i] < s[j]
  }

  function InsertStrike(s: seq<real>, x: real): seq<real> {
    if s == [] || x > Last(s) then s + [x]
    else if x == Last(s) then s
    else InsertStrike(Front(s), x) + [Last(s)]
  }

  lemma {:induction false} InsertKeepsMembers(s: seq<real>, x: real)
    ensures forall y :: y in InsertStrike(s, x) <==> y in s || y == x
  {
    if s != [] {
      assert s == Front(s) + [Last(s)];
      if x < Last(s) {
        InsertKeepsMembers(Front(s), x);
      }
    }
  }

  lemma {:induction false} InsertAscends(s: seq<real>, x: real)
    requires StrictlyAscending(s)
    ensures StrictlyAscending(InsertStrike(s, x))
  {
    if s != [] && x < Last(s) {
      InsertAscends(Front(s), x);
      InsertKeepsMembers(Front(s), x);
      var front := InsertStrike(Front(s), x);
      forall i | 0 <= i < |front|
        ensures front[i] < Last(s)
      {
        assert front[i] in front;
        hide InsertStrike;
      }
      hide InsertStrike;
    }
  }

  // The strikes with a valid quote, each once, in ascending order.
  function Strikes(quotes: seq<Quote>): (r: seq<real>)
    ensures StrictlyAscending(r)
    ensures forall k :: k in r <==> exists q :: q in quotes && IsValid(q) && q.strike == k
  {
    if quotes == [] then []
    else
      var rest := Strikes(Front(quotes));
      var q := Last(quotes);
      assert forall p :: p in quotes <==> p in Front(quotes) || p == q;
      InsertKeepsMembers(rest, q.strike);
      InsertAscends(rest, q.strike);
      if IsValid(q) then InsertStrike(rest, q.strike) else rest
  }

  predicate Before(a: Box, b: Box) {
    a.k1 < b.k1 || (a.k1 == b.k1 && a.k2 < b.k2)
  }

  predicate Seen(strikes: seq<real>, i: nat, j: nat, m: int, n: int) {
    0 <= m < n < |strikes| && (m < i || (m == i && n < j))
  }

  ghost predicate FromSeen(g: Group, t: Thresholds, strikes: seq<real>, b: Box, i: nat, j: nat) {
    exists m, n :: Seen(strikes, i, j, m, n) && TryBox(g, strikes[m], strikes[n], t) == Some(b)
  }

  // The boxes found so far: those of the strikes before i, and with i those before j.
  ghost predicate AllSeen(g: Group, t: Thresholds, strikes: seq<real>, out: seq<Box>, i: nat, j: nat) {
    && (forall b :: b in out ==> FromSeen(g, t, strikes, b, i, j))
    && (forall m, n :: Seen(strikes, i, j, m, n) ==>
          var box := TryBox(g, strikes[m], strikes[n], t); box.Some? ==> box.value in out)
  }

  predicate KeysAscend(out: seq<Box>) {
    forall x, y :: 0 <= x < y < |out| ==> Before(out[x], out[y])
  }

  ghost predicate FoundSoFar(g: Group, t: Thresholds, strikes: seq<real>, out: seq<Box>, i: nat, j: nat) {
    AllSeen(g, t, strikes, out, i, j) && KeysAscend(out)
  }

  lemma KeyOfBox(g: Group, k1: real, k2: real, t: Thresholds)
    ensures var box := TryBox(g, k1, k2, t); box.Some? ==> box.value.k1 == k1 && box.value.k2 == k2
  {
    hide Quoted, BestAsk, BestBid;
  }

  lemma SeenMore(g: Group, t: Thresholds, strikes: seq<real>, b: Box, i: nat, j: nat, i': nat, j': nat)
    requires FromSeen(g, t, strikes, b, i, j)
    requires forall m, n :: Seen(strikes, i, j, m, n) ==> Seen(strikes, i', j', m, n)
    ensures FromSeen(g, t, strikes, b, i', j')
  {
    hide TryBox;
    var m, n :| Seen(strikes, i, j, m, n) && TryBox(g, strikes[m], strikes[n], t) == Some(b);
    assert Seen(strikes, i', j', m, n);
  }

  // Everything seen before (i, j) has a smaller key.
  lemma SeenIsBefore(g: Group, t: Thresholds, strikes: seq<real>, a: Box, b: Box, i: nat, j: nat)
    requires StrictlyAscending(strikes) && i < j < |strikes|
    requires FromSeen(g, t, strikes, a, i, j) && TryBox(g, strikes[i], strikes[j], t) == Some(b)
    ensures Before(a, b)
  {
    hide TryBox;
    var m, n :| Seen(strikes, i, j, m, n) && TryBox(g, strikes[m], strikes[n], t) == Some(a);
    KeyOfBox(g, strikes[m], strikes[n], t);
    KeyOfBox(g, strikes[i], strikes[j], t);
  }

  lemma SeesOneMore(g: Group, t: Thresholds, strikes: seq<real>, out: seq<Box>, i: nat, j: nat)
    requires i < j < |strikes| && AllSeen(g, t, strikes, out, i, j)
    ensures var box := TryBox(g, strikes[i], strikes[j], t);
      AllSeen(g, t, strikes, if box.Some? then out + [box.value] else out, i, j + 1)
  {
    hide TryBox;
    var box := TryBox(g, strikes[i], strikes[j], t);
    assert Seen(strikes, i, j + 1, i, j);
    assert box.Some? ==> FromSeen(g, t, strikes, box.value, i, j + 1);
    hide FromSeen;
    forall b | b in out
      ensures FromSeen(g, t, strikes, b, i, j + 1)
    {
      SeenMore(g, t, strikes, b, i, j, i, j + 1);
    }
    forall m, n | Seen(strikes, i, j + 1, m, n)
      ensures Seen(strikes, i, j, m, n) || (m == i && n == j)
    {}
    hide Seen;
  }

  lemma KeysAscendOneMore(g: Group, t: Thresholds, strikes: seq<real>, out: seq<Box>, i: nat, j: nat, box: Box)
    requires StrictlyAscending(strikes) && i < j < |strikes|
    requires AllSeen(g, t, strikes, out, i, j) && KeysAscend(out)
    requires TryBox(g, strikes[i], strikes[j], t) == Some(box)
    ensures KeysAscend(out + [box])
  {
    hide TryBox, Before, StrictlyAscending, FromSeen;
    forall x | 0 <= x < |out|
      ensures Before(out[x], box)
    {
      assert out[x] in out;
      SeenIsBefore(g, t, strikes, out[x], box, i, j);
    }
    hide AllSeen;
  }

  lemma OneMorePair(g: Group, t: Thresholds, strikes: seq<real>, out: seq<Box>, i: nat, j: nat)
    requires StrictlyAscending(strikes) && i < j < |strikes|
    requires FoundSoFar(g, t, strikes, out, i, j)
    ensures var box := TryBox(g, strikes[i], strikes[j], t);
      FoundSoFar(g, t, strikes, if box.Some? then out + [box.value] else out, i, j + 1)
  {
    hide TryBox, Before, StrictlyAscending, AllSeen, KeysAscend;
    var box := TryBox(g, strikes[i], strikes[j], t);
    SeesOneMore(g, t, strikes, out, i, j);
    if box.Some? {
      KeysAscendOneMore(g, t, strikes, out, i, j, box.value);
    }
  }

  lemma NextRow(g: Group, t: Thresholds, strikes: seq<real>, out: seq<Box>, i: nat)
    requires i < |strikes| && FoundSoFar(g, t, strikes, out, i, |strikes|)
    ensures FoundSoFar(g, t, strikes, out, i + 1, i + 2)
  {
    hide TryBox, KeysAscend, FromSeen;
    forall b | b in out
      ensures FromSeen(g, t, strikes, b, i + 1, i + 2)
    {
      SeenMore(g, t, strikes, b, i, |strikes|, i + 1, i + 2);
    }
    assert forall m, n :: Seen(strikes, i + 1, i + 2, m, n) ==> Seen(strikes, i, |strikes|, m, n);
  }

  // Exactly one box for every pair of strikes that yields one.
  ghost predicate OnePerPair(g: Group, t: Thresholds, boxes: seq<Box>) {
    && (forall b :: b in boxes ==> b.k1 < b.k2 && TryBox(g, b.k1, b.k2, t) == Some(b))
    && (forall k1: real, k2: real :: k1 < k2 && TryBox(g, k1, k2, t).Some? ==> TryBox(g, k1, k2, t).value in boxes)
    && (forall x, y :: 0 <= x < y < |boxes| ==> (boxes[x].k1, boxes[x].k2) != (boxes[y].k1, boxes[y].k2))
  }

  lemma EmittedStrikes(g: Group, k1: real, k2: real, t: Thresholds)
    requires TryBox(g, k1, k2, t).Some?
    ensures k1 in Strikes(g.quotes) && k2 in Strikes(g.quotes)
  {
    EmittedLegs(g, k1, k2, t);
    hide TryBox, Quoted, Strikes;
  }

  lemma FoundIsSeen(g: Group, t: Thresholds, strikes: seq<real>, b: Box, i: nat, j: nat)
    requires StrictlyAscending(strikes) && FromSeen(g, t, strikes, b, i, j)
    ensures b.k1 < b.k2 && TryBox(g, b.k1, b.k2, t) == Some(b)
  {
    hide TryBox;
    var m, n :| Seen(strikes, i, j, m, n) && TryBox(g, strikes[m], strikes[n], t) == Some(b);
    KeyOfBox(g, strikes[m], strikes[n], t);
  }

  lemma PairIsFound(g: Group, t: Thresholds, strikes: seq<real>, boxes: seq<Box>, k1: real, k2: real)
    requires strikes == Strikes(g.quotes) && AllSeen(g, t, strikes, boxes, |strikes|, |strikes| + 1)
    requires k1 < k2 && TryBox(g, k1, k2, t).Some?
    ensures TryBox(g, k1, k2, t).value in boxes
  {
    EmittedStrikes(g, k1, k2, t);
    hide TryBox, Strikes, FromSeen;
    var m :| 0 <= m < |strikes| && strikes[m] == k1;
    var n :| 0 <= n < |strikes| && strikes[n] == k2;
    assert StrictlyAscending(strikes);
    assert Seen(strikes, |strikes|, |strikes| + 1, m, n);
  }

  lemma AllPairsFound(g: Group, t: Thresholds, strikes: seq<real>, boxes: seq<Box>)
    requires strikes == Strikes(g.quotes) && FoundSoFar(g, t, strikes, boxes, |strikes|, |strikes| + 1)
    ensures OnePerPair(g, t, boxes) && KeysAscend(boxes)
  {
    hide TryBox, Strikes, FromSeen, Seen;
    forall b | b in boxes
      ensures b.k1 < b.k2 && TryBox(g, b.k1, b.k2, t) == Some(b)
    {
      FoundIsSeen(g, t, strikes, b, |strikes|, |strikes| + 1);
    }
    forall k1: real, k2: real | k1 < k2 && TryBox(g, k1, k2, t).Some?
      ensures TryBox(g, k1, k2, t).value in boxes
    {
      PairIsFound(g, t, strikes, boxes, k1, k2);
    }
  }

  lemma NothingFound(g: Group, t: Thresholds, strikes: seq<real>)
    ensures FoundSoFar(g, t, strikes, [], 0, 1)
  {
    hide TryBox;
  }

  // All boxes of one group, by ascending strikes.
  method GroupBoxes(g: Group, t: Thresholds) returns (out: seq<Box>)
    ensures OnePerPair(g, t, out) && KeysAscend(out)
  {
    hide TryBox, Strikes, FoundSoFar, OnePerPair, KeysAscend;
    var strikes := Strikes(g.quotes);
    out := [];
    NothingFound(g, t, strikes);
    for i := 0 to |strikes|
      invariant FoundSoFar(g, t, strikes, out, i, i + 1)
    {
      for j := i + 1 to |strikes|
        invariant FoundSoFar(g, t, strikes, out, i, j)
      {
        OneMorePair(g, t, strikes, out, i, j);
        var box := TryBox(g, strikes[i], strikes[j], t);
        if box.Some? {
          out := out + [box.value];
        }
      }
      NextRow(g, t, strikes, out, i);
    }
    AllPairsFound(g, t, strikes, out);
  }

  predicate InHorizon(g: Group, t: Thresholds, now: int) {
    0.0 < DaysToExpiry(g.expiry, now) <= t.maxDaysToExpiry
  }

  predicate DistinctGroups(groups: seq<Group>) {
    forall i, j :: 0 <= i < j < |groups| ==>
      groups[i].underlying != groups[j].underlying || groups[i].expiry != groups[j].expiry
  }

  predicate SameStructure(a: Box, b: Box) {
    a.underlying == b.underlying && a.expiry == b.expiry && a.k1 == b.k1 && a.k2 == b.k2
  }

  // The boxes come from groups inside the horizon, all of theirs and each structure once.
  ghost predicate Detected(groups: seq<Group>, t: Thresholds, now: int, out: seq<Box>) {
    && (forall b :: b in out ==> (
          && b.k1 < b.k2
          && exists g :: g in groups && InHorizon(g, t, now) && TryBox(g, b.k1, b.k2, t) == Some(b)))
    && (forall g, k1: real, k2: real :: g in groups && InHorizon(g, t, now) && k1 < k2 && TryBox(g, k1, k2, t).Some? ==>
          TryBox(g, k1, k2, t).value in out)
    && (forall x, y :: 0 <= x < y < |out| ==> !SameStructure(out[x], out[y]))
  }

  lemma NoneDetected(t: Thresholds, now: int)
    ensures Detected([], t, now, [])
  {
    hide TryBox;
  }

  lemma SkippedGroup(groups: seq<Group>, g: Group, t: Thresholds, now: int, out: seq<Box>)
    requires Detected(groups, t, now, out)
    ensures !InHorizon(g, t, now) ==> Detected(groups + [g], t, now, out)
  {
    hide TryBox, InHorizon, SameStructure;
  }

  lemma StructureOfGroup(g: Group, k1: real, k2: real, t: Thresholds)
    ensures var box := TryBox(g, k1, k2, t);
      box.Some? ==> box.value.underlying == g.underlying && box.value.expiry == g.expiry
  {
    hide Quoted, BestAsk, BestBid;
  }

  lemma OneMoreGroup(groups: seq<Group>, g: Group, t: Thresholds, now: int, out: seq<Box>, boxes: seq<Box>)
    requires Detected(groups, t, now, out) && OnePerPair(g, t, boxes) && InHorizon(g, t, now)
    requires DistinctGroups(groups + [g])
    ensures Detected(groups + [g], t, now, out + boxes)
  {
    hide TryBox, InHorizon;
    forall a, b | a in out && b in boxes
      ensures !SameStructure(a, b)
    {
      StructureOfGroup(g, b.k1, b.k2, t);
      var h :| h in groups && InHorizon(h, t, now) && TryBox(h, a.k1, a.k2, t) == Some(a);
      StructureOfGroup(h, a.k1, a.k2, t);
      var i :| 0 <= i < |groups| && groups[i] == h;
      assert (groups + [g])[i] == h && (groups + [g])[|groups|] == g;
    }
    hide DistinctGroups;
  }

  method DetectBoxes(groups: seq<Group>, t: Thresholds, now: int) returns (out: seq<Box>)
    requires DistinctGroups(groups)
    ensures Detected(groups, t, now, out)
  {
    hide TryBox, InHorizon, Detected, DaysToExpiry, OnePerPair;
    out := [];
    NoneDetected(t, now);
    for i := 0 to |groups|
      invariant Detected(groups[..i], t, now, out)
    {
      assert groups[..i + 1] == groups[..i] + [groups[i]];
      SkippedGroup(groups[..i], groups[i], t, now, out);
      if !InHorizon(groups[i], t, now) {
        continue;
      }
      var boxes := GroupBoxes(groups[i], t);
      OneMoreGroup(groups[..i], groups[i], t, now, out, boxes);
      out := out + boxes;
    }
    assert groups[..|groups|] == groups;
  }

  // Some choice of legs is picked and worth its thresholds.
  ghost predicate WorthPicks(quotes: seq<Quote>, k1: real, k2: real, t: Thresholds, c1: nat, p1: nat, c2: nat, p2: nat) {
    && Picked(quotes, k1, k2, c1, p1, c2, p2)
    && exists size :: LeastSize(size, quotes[c1], quotes[p1], quotes[c2], quotes[p2])
         && Worth(Edge(k1, k2, quotes[c1], quotes[p1], quotes[c2], quotes[p2]), size, t)
  }

  lemma PicksOfBox(g: Group, k1: real, k2: real, t: Thresholds) returns (c1: nat, p1: nat, c2: nat, p2: nat)
    requires TryBox(g, k1, k2, t).Some?
    ensures WorthPicks(g.quotes, k1, k2, t, c1, p1, c2, p2)
  {
    NoLegNoBox(g, k1, k2, t);
    var other: nat;
    c1, other := SomeFirst(g.quotes, OfferedAt(k1, Call));
    other, p1 := SomeFirst(g.quotes, OfferedAt(k1, Put));
    other, c2 := SomeFirst(g.quotes, OfferedAt(k2, Call));
    p2, other := SomeFirst(g.quotes, OfferedAt(k2, Put));
    var q := g.quotes;
    assert Picked(q, k1, k2, c1, p1, c2, p2);
    BuildHasEdge(g, k1, k2, q[c1], q[p1], q[c2], q[p2]);
    TryBoxIff(g, k1, k2, t, c1, p1, c2, p2, Build(g, k1, k2, q[c1], q[p1], q[c2], q[p2]).maxSize);
    hide Picked, TryBox, Build, Edge, Worth;
  }

  predicate HasBox(out: seq<Box>, g: Group, k1: real, k2: real) {
    exists b :: b in out && b.underlying == g.underlying && b.expiry == g.expiry && b.k1 == k1 && b.k2 == k2
  }

  lemma WorthPicksBox(g: Group, k1: real, k2: real, t: Thresholds, c1: nat, p1: nat, c2: nat, p2: nat)
    requires WorthPicks(g.quotes, k1, k2, t, c1, p1, c2, p2)
    ensures TryBox(g, k1, k2, t).Some?
  {
    var q := g.quotes;
    assert c1 < |q| && p1 < |q| && c2 < |q| && p2 < |q|;
    hide TryBox, Picked, Edge, Worth;
    var size :| LeastSize(size, q[c1], q[p1], q[c2], q[p2]) && Worth(Edge(k1, k2, q[c1], q[p1], q[c2], q[p2]), size, t);
    TryBoxIff(g, k1, k2, t, c1, p1, c2, p2, size);
  }

  lemma SameMarketSameGroup(groups: seq<Group>, g: Group, h: Group)
    requires DistinctGroups(groups) && g in groups && h in groups && g.underlying == h.underlying && g.expiry == h.expiry
    ensures g == h
  {
    var i :| 0 <= i < |groups| && groups[i] == g;
    var j :| 0 <= j < |groups| && groups[j] == h;
  }

  // For every group and pair of strikes: there is a box exactly when the group expires within the
  // horizon and has, among its valid quotes, four legs whose picks are worth the thresholds.
  lemma BoxEmittedIff(groups: seq<Group>, t: Thresholds, now: int, out: seq<Box>, g: Group, k1: real, k2: real)
    requires Detected(groups, t, now, out) && DistinctGroups(groups) && g in groups && k1 < k2
    ensures HasBox(out, g, k1, k2) <==>
      && now < g.expiry && (g.expiry - now) as real <= t.maxDaysToExpiry * (24 * 60 * 60 * 1000000) as real
      && exists c1: nat, p1: nat, c2: nat, p2: nat :: WorthPicks(g.quotes, k1, k2, t, c1, p1, c2, p2)
  {
    DaysCompare(g.expiry, now, t.maxDaysToExpiry);
    assert InHorizon(g, t, now) <==>
      now < g.expiry && (g.expiry - now) as real <= t.maxDaysToExpiry * (24 * 60 * 60 * 1000000) as real;
    hide InHorizon, TryBox, DaysToExpiry, WorthPicks;
    if HasBox(out, g, k1, k2) {
      var b :| b in out && b.underlying == g.underlying && b.expiry == g.expiry && b.k1 == k1 && b.k2 == k2;
      var h :| h in groups && InHorizon(h, t, now) && TryBox(h, b.k1, b.k2, t) == Some(b);
      StructureOfGroup(h, k1, k2, t);
      SameMarketSameGroup(groups, g, h);
      var c1, p1, c2, p2 := PicksOfBox(g, k1, k2, t);
    }
    if c1: nat, p1: nat, c2: nat, p2: nat :| WorthPicks(g.quotes, k1, k2, t, c1, p1, c2, p2) {
      WorthPicksBox(g, k1, k2, t, c1, p1, c2, p2);
      StructureOfGroup(g, k1, k2, t);
      KeyOfBox(g, k1, k2, t);
    }
  }
}

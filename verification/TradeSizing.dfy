// Sizing of one trade on freshly fetched books (backend/src/option_arb/services/executor.py).
//
// The executor prices the pair at the worst prices its two IOC limits allow and looks for the
// largest size that clears four gates, by bisection.  The theorems say why bisection is sound
// (passing is downward-closed in the size), why its starting point excludes nothing, and how close
// the authorised size is to the best one.
module TradeSizing {
  import opened OptionEconomics
  import opened OrderBook
  import opened Orders
  import opened RealArithmetic
  import opened Wrappers

  const BINARY_SEARCH_STEPS: nat := 20
  const SEARCH_RESOLUTION := 1048576.0 // 2^BINARY_SEARCH_STEPS

  datatype Config = Config(
    minAprPct: real,
    minBuyPremium: real,
    minNetProfit: real,
    minNetReturnPct: real,
    maxContracts: Option<real>,
    slippagePct: real,
    maxBuyPremium: real,
    maxDaysToExpiry: real)

  datatype Gates = Gates(
    minApr: real,
    minBuyPremium: real,
    minNetProfit: real,
    minNetReturn: real,
    maxContracts: Option<real>,
    slippage: real,
    cap: real)

  datatype WalkedTrade = WalkedTrade(
    walkedAsk: real,
    walkedBid: real,
    buyLimit: real,
    sellLimit: real,
    economics: Economics)

  // Everything that is fixed while sizes are tried.
  datatype Attempt = Attempt(
    asks: seq<BookLevel>,
    bids: seq<BookLevel>,
    buyInst: Instrument,
    sellInst: Instrument,
    gates: Gates,
    spot: real,
    daysToExpiry: real)

  function ValidSpot(spot: Option<real>): Option<real> {
    if spot.Some? && spot.value > 0.0 then spot else None
  }

  function FirstSpot(buyBook: Book, sellBook: Book): Option<real> {
    var spot := ValidSpot(buyBook.underlyingPrice);
    if spot.Some? then spot else ValidSpot(sellBook.underlyingPrice)
  }

  // The spot price used is a positive one of the buying book if it has one, otherwise of the selling one.
  lemma FirstSpotIs(buyBook: Book, sellBook: Book)
    ensures var buy, sell, spot := buyBook.underlyingPrice, sellBook.underlyingPrice, FirstSpot(buyBook, sellBook);
      && (spot.Some? ==> spot.value > 0.0 && (spot == buy || spot == sell))
      && (buy.Some? && buy.value > 0.0 ==> spot == buy)
      && (spot.None? ==> (buy.Some? ==> buy.value <= 0.0) && (sell.Some? ==> sell.value <= 0.0))
  {}

  // A configured contract limit of zero means no limit.
  function MakeGates(cfg: Config, buyAvail: Option<real>): Result<Gates, Rejection> {
    var cap := if buyAvail.Some? then Min(cfg.maxBuyPremium, buyAvail.value) else cfg.maxBuyPremium;
    if buyAvail.Some? && cap <= 0.0 then Err(InsufficientBuyFunds)
    else
      Ok(Gates(cfg.minAprPct, cfg.minBuyPremium, cfg.minNetProfit, cfg.minNetReturnPct,
               if cfg.maxContracts == Some(0.0) then None else cfg.maxContracts,
               cfg.slippagePct / 100.0, cap))
  }

  // The gates are the configured ones, the cap lowered to the known funds; without any funds there is no
  // attempt.
  lemma GatesAreConfigured(cfg: Config, buyAvail: Option<real>)
    ensures var r := MakeGates(cfg, buyAvail);
      && (r.Err? <==> buyAvail.Some? && (cfg.maxBuyPremium <= 0.0 || buyAvail.value <= 0.0))
      && (r.Err? ==> r.error == InsufficientBuyFunds)
      && (r.Ok? ==>
            var g := r.value;
            && (g.minApr, g.minBuyPremium, g.minNetProfit, g.minNetReturn)
               == (cfg.minAprPct, cfg.minBuyPremium, cfg.minNetProfit, cfg.minNetReturnPct)
            && 100.0 * g.slippage == cfg.slippagePct
            && g.cap <= cfg.maxBuyPremium && (buyAvail.Some? ==> g.cap <= buyAvail.value)
            && (g.cap == cfg.maxBuyPremium || buyAvail == Some(g.cap))
            && (g.maxContracts.Some? <==> cfg.maxContracts.Some? && cfg.maxContracts.value != 0.0)
            && (g.maxContracts.Some? ==> g.maxContracts == cfg.maxContracts))
  {}

  function ContractOf(a: Attempt): Contract {
    Contract(a.buyInst.takerFee, a.sellInst.takerFee, Some(a.spot), a.sellInst.strike, a.sellInst.optionType,
             a.daysToExpiry)
  }

  // Worst prices the two IOC limits allow at a size.
  function BuyLimit(size: real, a: Attempt): real {
    Times(Vwap(size, a.asks), 1.0 + a.gates.slippage)
  }

  function SellLimit(size: real, a: Attempt): real {
    Times(Vwap(size, a.bids), 1.0 - a.gates.slippage)
  }

  function PriceAtSize(size: real, a: Attempt): Option<WalkedTrade> {
    if WalkFilled(size, a.asks) < size || WalkFilled(size, a.bids) < size then None
    else
      var economics := Calculate(BuyLimit(size, a), SellLimit(size, a), size, ContractOf(a));
      if economics.None? then None
      else Some(WalkedTrade(Vwap(size, a.asks), Vwap(size, a.bids), BuyLimit(size, a), SellLimit(size, a),
                            economics.value))
  }

  lemma VwapOfWalk(size: real, levels: seq<BookLevel>)
    ensures 0.0 < WalkFilled(size, levels) ==>
      Times(Vwap(size, levels), WalkFilled(size, levels)) == WalkCost(size, levels)
  {
    if 0.0 < WalkFilled(size, levels) {
      DivMul(WalkCost(size, levels), WalkFilled(size, levels));
    }
    hide WalkCost, WalkFilled;
  }

  // A priced size: both walked averages, the two limits at slippage from them, and what the calculation
  // makes of these.
  lemma PricedAtWalks(size: real, a: Attempt)
    requires PriceAtSize(size, a).Some?
    ensures var t := PriceAtSize(size, a).value;
      && 0.0 < size <= WalkFilled(size, a.asks) && size <= WalkFilled(size, a.bids)
      && Times(t.walkedAsk, WalkFilled(size, a.asks)) == WalkCost(size, a.asks)
      && Times(t.walkedBid, WalkFilled(size, a.bids)) == WalkCost(size, a.bids)
      && t.buyLimit == Times(t.walkedAsk, 1.0 + a.gates.slippage)
      && t.sellLimit == Times(t.walkedBid, 1.0 - a.gates.slippage)
      && Some(t.economics) == Calculate(t.buyLimit, t.sellLimit, size, Contract(
           a.buyInst.takerFee, a.sellInst.takerFee, Some(a.spot), a.sellInst.strike, a.sellInst.optionType,
           a.daysToExpiry))
  {
    CalculateDefined(BuyLimit(size, a), SellLimit(size, a), size, ContractOf(a));
    VwapOfWalk(size, a.asks);
    VwapOfWalk(size, a.bids);
    hide WalkCost, WalkFilled, Vwap, Times, Calculate;
  }

  predicate ClearsGates(t: WalkedTrade, gates: Gates) {
    && t.economics.buyPremium <= gates.cap
    && t.economics.netProfit > 0.0
    && t.economics.netReturnPct >= gates.minNetReturn
    && t.economics.aprPct >= gates.minApr
  }

  function MaxSizeWithinCap(asks: seq<BookLevel>, bids: seq<BookLevel>, cap: real, maxContracts: Option<real>,
                            buyPriceMultiplier: real): real
  {
    if asks == [] || bids == [] then 0.0
    else
      var liquidity := Min(Depth(asks), Depth(bids));
      var worstPrice := Times(asks[0].price, buyPriceMultiplier);
      var capSize := if worstPrice > 0.0 then cap / worstPrice else 0.0;
      var size := Min(liquidity, capSize);
      if maxContracts.Some? then Min(size, maxContracts.value) else size
  }

  function LargestSize(a: Attempt): real {
    MaxSizeWithinCap(a.asks, a.bids, a.gates.cap, a.gates.maxContracts, 1.0 + a.gates.slippage)
  }

  // ---------------------------------------------------------------------------------------------
  // The gates are downward-closed in the size
  // ---------------------------------------------------------------------------------------------

  // What venues promise about a book: sizes never negative, prices positive, sorted best first.
  predicate OrderedBooks(a: Attempt) {
    && Ascending(a.asks) && NonNegativeSizes(a.asks) && PositivePrices(a.asks)
    && Descending(a.bids) && NonNegativeSizes(a.bids) && PositivePrices(a.bids)
  }

  predicate Fillable(size: real, a: Attempt) {
    size <= 0.0 || (size <= Depth(a.asks) && size <= Depth(a.bids))
  }

  predicate Passes(size: real, a: Attempt) {
    var t := PriceAtSize(size, a);
    t.Some? && ClearsGates(t.value, a.gates)
  }

  // The four gates in terms of the two limit prices at a size.
  predicate GatesAt(size: real, buyPrice: real, sellPrice: real, margin: real, c: Contract, g: Gates)
    requires c.daysToExpiry > 0.0 && margin > 0.0 && buyPrice > 0.0
  {
    var profit := UnitProfit(buyPrice, sellPrice, c);
    && Times(buyPrice, size) <= g.cap
    && profit > 0.0
    && profit / (margin + buyPrice) * 100.0 >= g.minNetReturn
    && profit / (margin + buyPrice) * 100.0 * 365.0 / c.daysToExpiry >= g.minApr
  }

  lemma ProductSign(x: real, y: real)
    requires 0.0 < y
    ensures 0.0 < Times(x, y) <==> 0.0 < x
  {
    if x <= 0.0 {
      MulMono(x, 0.0, y);
    } else {
      MulPositive(x, y);
    }
  }

  // Passing, unfolded: the books can fill the size, the contract can be priced at the limits, and
  // the per-unit figures clear the gates.
  lemma PassesPerUnit(size: real, a: Attempt)
    requires OrderedBooks(a)
    ensures Passes(size, a) <==>
      && size > 0.0 && Fillable(size, a) && Priceable(ContractOf(a))
      && BuyLimit(size, a) > 0.0 && SellLimit(size, a) > 0.0
      && var c := ContractOf(a);
         var margin := SellMarginPerUnit(a.spot, c.strike, c.optionType);
         margin > 0.0 && GatesAt(size, BuyLimit(size, a), SellLimit(size, a), margin, c, a.gates)
  {
    var b, s, c := BuyLimit(size, a), SellLimit(size, a), ContractOf(a);
    hide Times, BuyLimit, SellLimit, UnitProfit, SellMarginPerUnit;
    WalkFillsMinOfSizeAndDepth(size, a.asks);
    WalkFillsMinOfSizeAndDepth(size, a.bids);
    CalculateDefined(b, s, size, c);
    if Calculate(b, s, size, c).Some? {
      CalculatePerUnit(b, s, size, c);
      ProductSign(UnitProfit(b, s, c), size);
    }
  }

  lemma ProductGrows(a: real, b: real, x: real, y: real)
    requires 0.0 < a <= b && 0.0 < x <= y
    ensures Times(a, x) <= Times(b, y)
  {
    MulMono(a, b, x);
    MulMono(x, y, b);
  }

  lemma UnitProfitImproves(buyX: real, buyY: real, sellX: real, sellY: real, c: Contract)
    requires c.buyFee >= 0.0 && c.sellFee >= 0.0
    requires 0.0 < buyX <= buyY && 0.0 < sellY <= sellX
    requires UnitProfit(buyY, sellY, c) > 0.0
    ensures c.sellFee < 1.0
    ensures UnitProfit(buyY, sellY, c) <= UnitProfit(buyX, sellX, c)
  {
    hide Times;
    TimesPositive(buyY, 1.0 + c.buyFee);
    if c.sellFee >= 1.0 {
      TimesMono(1.0 - c.sellFee, 0.0, sellY);
      TimesZero(sellY);
      assert false;
    }
    TimesMono(sellY, sellX, 1.0 - c.sellFee);
    TimesMono(buyX, buyY, 1.0 + c.buyFee);
  }

  lemma DivideByPositive(x: real, y: real, c: real)
    requires x <= y && 0.0 < c
    ensures x / c <= y / c
  {
    DivMul(x, c);
    DivMul(y, c);
    MulCancel(x / c, y / c, c);
  }

  lemma RatioStep(rx: real, ry: real, px: real, py: real, cx: real, cy: real)
    requires 0.0 < py <= px && 0.0 < cx <= cy
    requires rx * cx == px && ry * cy == py
    ensures ry <= rx
  {
    ProductSign(ry, cy);
    MulMono(cx, cy, ry);
    MulCancel(ry, rx, cx);
  }

  lemma RatioGrows(px: real, py: real, cx: real, cy: real)
    requires 0.0 < py <= px && 0.0 < cx <= cy
    ensures py / cy <= px / cx
  {
    var rx, ry := px / cx, py / cy;
    DivMul(px, cx);
    DivMul(py, cy);
    RatioStep(rx, ry, px, py, cx, cy);
  }

  // Better prices for a smaller size keep every gate clear: the premium shrinks, and profit per unit
  // of capital grows because the profit grows while the capital shrinks.
  lemma GatesImproveWithPrices(x: real, y: real, buyX: real, buyY: real, sellX: real, sellY: real, margin: real, c: Contract, g: Gates)
    requires Priceable(c) && margin > 0.0
    requires 0.0 < x <= y && 0.0 < buyX <= buyY && 0.0 < sellY <= sellX
    requires GatesAt(y, buyY, sellY, margin, c, g)
    ensures GatesAt(x, buyX, sellX, margin, c, g)
  {
    var px, py := UnitProfit(buyX, sellX, c), UnitProfit(buyY, sellY, c);
    ProductGrows(buyX, buyY, x, y);
    UnitProfitImproves(buyX, buyY, sellX, sellY, c);
    hide Times, UnitProfit;
    RatioGrows(px, py, margin + buyX, margin + buyY);
    DivideByPositive(py / (margin + buyY) * 100.0 * 365.0, px / (margin + buyX) * 100.0 * 365.0, c.daysToExpiry);
  }

  lemma ScaledOrder(p: real, q: real, k: real)
    requires 0.0 < p <= q
    requires Times(p, k) > 0.0 || Times(q, k) > 0.0
    ensures 0.0 < Times(p, k) <= Times(q, k)
  {
    hide Times;
    if k <= 0.0 {
      TimesMono(k, 0.0, p);
      TimesMono(k, 0.0, q);
      TimesZero(p);
      TimesZero(q);
      assert false;
    }
    TimesPositive(p, k);
    TimesMono(p, q, k);
  }

  // Limits move with the walked prices, whatever the configured slippage.
  lemma BuyLimitImproves(x: real, y: real, a: Attempt)
    requires OrderedBooks(a)
    requires 0.0 < x <= y && Fillable(y, a) && BuyLimit(y, a) > 0.0
    ensures 0.0 < BuyLimit(x, a) <= BuyLimit(y, a)
  {
    VwapPositive(x, a.asks);
    VwapAscends(x, y, a.asks);
    hide Times, Vwap, Depth;
    ScaledOrder(Vwap(x, a.asks), Vwap(y, a.asks), 1.0 + a.gates.slippage);
  }

  lemma SellLimitImproves(x: real, y: real, a: Attempt)
    requires OrderedBooks(a)
    requires 0.0 < x <= y && Fillable(y, a) && SellLimit(y, a) > 0.0
    ensures SellLimit(y, a) <= SellLimit(x, a)
  {
    VwapPositive(y, a.bids);
    VwapDescends(x, y, a.bids);
    hide Times, Vwap, Depth;
    ScaledOrder(Vwap(y, a.bids), Vwap(x, a.bids), 1.0 - a.gates.slippage);
  }

  lemma PassesDownwardClosed(x: real, y: real, a: Attempt)
    requires OrderedBooks(a)
    requires 0.0 < x <= y && Passes(y, a)
    ensures Passes(x, a)
  {
    PassesPerUnit(y, a);
    BuyLimitImproves(x, y, a);
    SellLimitImproves(x, y, a);
    var c := ContractOf(a);
    GatesImproveWithPrices(x, y, BuyLimit(x, a), BuyLimit(y, a), SellLimit(x, a), SellLimit(y, a),
                           SellMarginPerUnit(a.spot, c.strike, c.optionType), c, a.gates);
    PassesPerUnit(x, a);
  }

  // ---------------------------------------------------------------------------------------------
  // The starting size excludes nothing
  // ---------------------------------------------------------------------------------------------

  predicate WithinContracts(size: real, g: Gates) {
    g.maxContracts.Some? ==> size <= g.maxContracts.value
  }

  lemma BestAskWithinLimit(size: real, a: Attempt)
    requires OrderedBooks(a)
    requires 0.0 < size && Fillable(size, a) && BuyLimit(size, a) > 0.0
    ensures a.asks != [] && 0.0 < Times(a.asks[0].price, 1.0 + a.gates.slippage) <= BuyLimit(size, a)
  {
    VwapAtLeastBest(size, a.asks);
    hide Times, Vwap, Depth;
    ScaledOrder(a.asks[0].price, Vwap(size, a.asks), 1.0 + a.gates.slippage);
  }

  // A passing size can be filled, and can be bought at its limit within the cap.
  lemma PassingIsAffordable(size: real, a: Attempt)
    requires OrderedBooks(a) && Passes(size, a)
    ensures size > 0.0 && Fillable(size, a) && a.asks != [] && a.bids != []
    ensures 0.0 < BuyLimit(size, a) && Times(BuyLimit(size, a), size) <= a.gates.cap
  {
    PassesPerUnit(size, a);
    hide Times, Passes, BuyLimit, Vwap, UnitProfit, SellMarginPerUnit;
  }

  lemma PaidFor(size: real, worst: real, cap: real)
    requires 0.0 < worst
    ensures Times(worst, size) <= cap <==> size <= cap / worst
  {
    DivMul(cap, worst);
    if size <= cap / worst {
      MulMono(size, cap / worst, worst);
    }
    if Times(worst, size) <= cap {
      MulCancel(size, cap / worst, worst);
    }
  }

  // The starting size is the largest that both books hold, the cap pays for at the best ask with slippage,
  // and the contract limit allows.
  lemma MaxSizeIff(size: real, asks: seq<BookLevel>, bids: seq<BookLevel>, cap: real, maxContracts: Option<real>, k: real)
    requires asks != [] && bids != [] && 0.0 < Times(asks[0].price, k)
    ensures size <= MaxSizeWithinCap(asks, bids, cap, maxContracts, k) <==>
      && size <= Depth(asks) && size <= Depth(bids) && Times(Times(asks[0].price, k), size) <= cap
      && (maxContracts.Some? ==> size <= maxContracts.value)
  {
    PaidFor(size, Times(asks[0].price, k), cap);
    hide Times, Depth;
  }

  // And so for an attempt: its own books, its cap and its contract limit, at its slippage.
  lemma LargestSizeIff(size: real, a: Attempt)
    requires a.asks != [] && a.bids != [] && 0.0 < Times(a.asks[0].price, 1.0 + a.gates.slippage)
    ensures size <= LargestSize(a) <==>
      && size <= Depth(a.asks) && size <= Depth(a.bids) && WithinContracts(size, a.gates)
      && Times(Times(a.asks[0].price, 1.0 + a.gates.slippage), size) <= a.gates.cap
  {
    MaxSizeIff(size, a.asks, a.bids, a.gates.cap, a.gates.maxContracts, 1.0 + a.gates.slippage);
    hide Times, Depth, MaxSizeWithinCap;
  }

  // Without a best ask above zero, or without a side, there is nothing to start from.
  lemma NothingToStartFrom(asks: seq<BookLevel>, bids: seq<BookLevel>, cap: real, maxContracts: Option<real>, k: real)
    ensures asks == [] || bids == [] ==> MaxSizeWithinCap(asks, bids, cap, maxContracts, k) == 0.0
    ensures asks != [] && bids != [] && Times(asks[0].price, k) <= 0.0 ==>
      MaxSizeWithinCap(asks, bids, cap, maxContracts, k) <= 0.0
  {
    hide Times, Depth;
  }

  lemma AffordableSize(size: real, worstBest: real, price: real, cap: real)
    requires 0.0 < size && 0.0 < worstBest <= price && Times(price, size) <= cap
    ensures size <= cap / worstBest
  {
    MulMono(worstBest, price, size);
    DivMul(cap, worstBest);
    MulCancel(size, cap / worstBest, worstBest);
  }

  // MaxSizeWithinCap is an upper bound for whatever the books can fill and the cap can pay for.
  lemma MaxSizeIsUpperBound(size: real, price: real, asks: seq<BookLevel>, bids: seq<BookLevel>, cap: real,
                            maxContracts: Option<real>, k: real)
    requires asks != [] && bids != []
    requires 0.0 < size <= Depth(asks) && size <= Depth(bids)
    requires 0.0 < Times(asks[0].price, k) <= price && Times(price, size) <= cap
    requires maxContracts.Some? ==> size <= maxContracts.value
    ensures size <= MaxSizeWithinCap(asks, bids, cap, maxContracts, k)
  {
    hide Times, Depth;
    AffordableSize(size, Times(asks[0].price, k), price, cap);
  }

  lemma PassingSizesAreWithinCap(size: real, a: Attempt)
    requires OrderedBooks(a)
    requires Passes(size, a) && WithinContracts(size, a.gates)
    ensures size <= LargestSize(a)
  {
    PassingIsAffordable(size, a);
    hide Times, Passes, BuyLimit, Depth, MaxSizeWithinCap;
    BestAskWithinLimit(size, a);
    MaxSizeIsUpperBound(size, BuyLimit(size, a), a.asks, a.bids, a.gates.cap, a.gates.maxContracts,
                        1.0 + a.gates.slippage);
  }

  // ---------------------------------------------------------------------------------------------
  // Bisection
  // ---------------------------------------------------------------------------------------------

  predicate Acceptable<T(!new)>(size: real, evaluate: real -> Option<T>, passes: T -> bool) {
    evaluate(size).Some? && passes(evaluate(size).value)
  }

  ghost predicate DownwardClosed<T(!new)>(largest: real, evaluate: real -> Option<T>, passes: T -> bool) {
    forall x, y :: 0.0 < x <= y <= largest && Acceptable(y, evaluate, passes) ==> Acceptable(x, evaluate, passes)
  }

  // Every acceptable size up to `largest` is less than one search step above `bound`.
  ghost predicate AllBelow<T(!new)>(bound: real, largest: real, evaluate: real -> Option<T>, passes: T -> bool) {
    forall t :: 0.0 < t <= largest && Acceptable(t, evaluate, passes) ==> t < bound + largest / SEARCH_RESOLUTION
  }

  function Pow2(n: nat): (p: real)
    ensures p >= 1.0
  {
    if n == 0 then 1.0 else 2.0 * Pow2(n - 1)
  }

  lemma SearchWidth(width: real, i: nat)
    ensures Times(width, Pow2(0)) == width
    ensures Times(width / 2.0, Pow2(i + 1)) == Times(width, Pow2(i))
  {}

  lemma SearchResolution(width: real, largest: real)
    requires Times(width, Pow2(BINARY_SEARCH_STEPS)) == largest
    ensures width == largest / SEARCH_RESOLUTION
  {
    assert Pow2(5) == 32.0;
    assert Pow2(10) == 1024.0;
    assert Pow2(15) == 32768.0;
    assert Pow2(20) == SEARCH_RESOLUTION;
  }

  method LargestPassingSize<T(!new)>(largest: real, evaluate: real -> Option<T>, passes: T -> bool)
    returns (best: Option<T>, ghost size: real)
    requires largest > 0.0
    ensures best.Some? ==> 0.0 < size <= largest && best == evaluate(size) && Acceptable(size, evaluate, passes)
    ensures best.None? ==> size == 0.0
    ensures Acceptable(largest, evaluate, passes) ==> best == evaluate(largest) && size == largest
    ensures DownwardClosed(largest, evaluate, passes) ==> AllBelow(size, largest, evaluate, passes)
  {
    hide Times, Pow2;
    var candidate := evaluate(largest);
    if candidate.Some? && passes(candidate.value) {
      return candidate, largest;
    }
    best := None;
    var low, high := 0.0, largest;
    ghost var width := largest;
    SearchWidth(width, 0);
    for i := 0 to BINARY_SEARCH_STEPS
      invariant 0.0 <= low < high <= largest && high == low + width
      invariant Times(width, Pow2(i)) == largest
      invariant !Acceptable(high, evaluate, passes)
      invariant best.None? ==> low == 0.0
      invariant best.Some? ==> 0.0 < low && best == evaluate(low) && Acceptable(low, evaluate, passes)
    {
      var mid := (low + high) / 2.0;
      if mid <= 0.0 {
        break;
      }
      SearchWidth(width, i);
      width := width / 2.0;
      var result := evaluate(mid);
      if result.Some? && passes(result.value) {
        best := result;
        low := mid;
      } else {
        high := mid;
      }
    }
    size := low;
    SearchResolution(width, largest);
  }

  // ---------------------------------------------------------------------------------------------
  // Authorising a trade
  // ---------------------------------------------------------------------------------------------

  // Absolute floors, checked once on the size the search returned.
  function FinalChecks(t: WalkedTrade, g: Gates, buyInst: Instrument, sellInst: Instrument, sellAvail: Option<real>):
    Result<WalkedTrade, Rejection>
  {
    var e := t.economics;
    var minSize := Max(buyInst.minTradeAmount, sellInst.minTradeAmount);
    if e.buyPremium < g.minBuyPremium then Err(SizeTooSmall)
    else if e.netProfit < g.minNetProfit then Err(ProfitTooSmall)
    else if minSize > 0.0 && e.tradeableSize < minSize then Err(SizeBelowMinimum)
    else if sellAvail.Some? && sellAvail.value < e.shortMargin then Err(InsufficientSellFunds)
    else Ok(t)
  }

  // A size that passes the gates is turned down for the first of four reasons that applies: its premium,
  // its profit, its quantity against the larger of both minima, the known funds against its margin.
  lemma FloorsInOrder(t: WalkedTrade, g: Gates, buyInst: Instrument, sellInst: Instrument, sellAvail: Option<real>)
    ensures var e, r := t.economics, FinalChecks(t, g, buyInst, sellInst, sellAvail);
      var least := if buyInst.minTradeAmount < sellInst.minTradeAmount then sellInst.minTradeAmount
                   else buyInst.minTradeAmount;
      var premium, profit := g.minBuyPremium <= e.buyPremium, g.minNetProfit <= e.netProfit;
      var quantity := least <= 0.0 || least <= e.tradeableSize;
      var funds := sellAvail.None? || e.shortMargin <= sellAvail.value;
      && (r == Ok(t) <==> premium && profit && quantity && funds)
      && (r == Err(SizeTooSmall) <==> !premium)
      && (r == Err(ProfitTooSmall) <==> premium && !profit)
      && (r == Err(SizeBelowMinimum) <==> premium && profit && !quantity)
      && (r == Err(InsufficientSellFunds) <==> premium && profit && quantity && !funds)
  {}

  // Every size that passes and respects the contract limit is less than one search step above `bound`.
  ghost predicate AllPassingBelow(bound: real, a: Attempt) {
    forall s :: Passes(s, a) && WithinContracts(s, a.gates) ==> s < bound + LargestSize(a) / SEARCH_RESOLUTION
  }

  // What the search may return: nothing, or a passing size that cannot be beaten by a search step; the
  // starting size if that passes.
  ghost predicate SearchResult(winner: Option<WalkedTrade>, size: real, a: Attempt) {
    && (winner.None? ==> size == 0.0)
    && (winner.Some? ==> 0.0 < size <= LargestSize(a) && winner == PriceAtSize(size, a) && Passes(size, a))
    && (Passes(LargestSize(a), a) ==> size == LargestSize(a))
    && (OrderedBooks(a) ==> AllPassingBelow(size, a))
  }

  ghost predicate Decided(r: Result<WalkedTrade, Rejection>, size: real, winner: Option<WalkedTrade>, a: Attempt,
                          sellAvail: Option<real>)
  {
    && SearchResult(winner, size, a)
    && r == match winner
            case None => Err(AprDropped)
            case Some(t) => FinalChecks(t, a.gates, a.buyInst, a.sellInst, sellAvail)
  }

  // What an authorised trade promises, at the worst prices its limits allow.
  predicate Authorised(t: WalkedTrade, cfg: Config, buyInst: Instrument, sellInst: Instrument, buyAvail: Option<real>,
                       sellAvail: Option<real>, c: Contract)
  {
    var e := t.economics;
    && Priceable(c) && t.buyLimit > 0.0 && t.sellLimit > 0.0 && e.tradeableSize > 0.0
    && buyInst.minTradeAmount <= e.tradeableSize && sellInst.minTradeAmount <= e.tradeableSize
    && e.buyPremium == Times(t.buyLimit, e.tradeableSize)
    && cfg.minBuyPremium <= e.buyPremium <= cfg.maxBuyPremium
    && (buyAvail.Some? ==> e.buyPremium <= buyAvail.value)
    && (sellAvail.Some? ==> e.shortMargin <= sellAvail.value)
    && e.netProfit == Times(UnitProfit(t.buyLimit, t.sellLimit, c), e.tradeableSize) > 0.0
    && e.netProfit >= cfg.minNetProfit
    && e.netReturnPct >= cfg.minNetReturnPct && e.aprPct >= cfg.minAprPct
  }

  lemma DecidedIsAuthorised(cfg: Config, buyAvail: Option<real>, t: WalkedTrade, size: real, a: Attempt, sellAvail: Option<real>)
    requires MakeGates(cfg, buyAvail) == Ok(a.gates)
    requires Decided(Ok(t), size, Some(t), a, sellAvail)
    ensures Authorised(t, cfg, a.buyInst, a.sellInst, buyAvail, sellAvail, ContractOf(a))
  {
    hide Times, BuyLimit, SellLimit, UnitProfit, WalkFilled, Vwap, AllPassingBelow, LargestSize, SellMarginPerUnit;
    CalculateDefined(BuyLimit(size, a), SellLimit(size, a), size, ContractOf(a));
    CalculatePerUnit(BuyLimit(size, a), SellLimit(size, a), size, ContractOf(a));
  }

  // What walk-and-verify may return, rejection by rejection.
  ghost predicate Verdict(r: Result<WalkedTrade, Rejection>, cfg: Config, buyBook: Book, sellBook: Book,
                          buyInst: Instrument, sellInst: Instrument, expiry: int, now: int, buyAvail: Option<real>,
                          sellAvail: Option<real>)
  {
    match MakeGates(cfg, buyAvail)
    case Err(e) => r == Err(e)
    case Ok(gates) =>
      if FirstSpot(buyBook, sellBook).None? then r == Err(MarginUnavailable)
      else if DaysToExpiry(expiry, now) <= 0.0 then r == Err(ExpiryInvalid)
      else
        var a := Attempt(buyBook.asks, sellBook.bids, buyInst, sellInst, gates, FirstSpot(buyBook, sellBook).value,
                         DaysToExpiry(expiry, now));
        if LargestSize(a) <= 0.0 then r == Err(EmptyBook)
        else
          && (exists winner, size :: Decided(r, size, winner, a, sellAvail))
          && (r.Ok? ==> Authorised(r.value, cfg, buyInst, sellInst, buyAvail, sellAvail, ContractOf(a)))
  }

  lemma SearchIsNearOptimal(size: real, a: Attempt, evaluate: real -> Option<WalkedTrade>, passes: WalkedTrade -> bool)
    requires OrderedBooks(a)
    requires forall s :: evaluate(s) == PriceAtSize(s, a)
    requires forall t :: passes(t) == ClearsGates(t, a.gates)
    requires DownwardClosed(LargestSize(a), evaluate, passes) ==> AllBelow(size, LargestSize(a), evaluate, passes)
    ensures AllPassingBelow(size, a)
  {
    forall x, y | 0.0 < x <= y <= LargestSize(a) && Acceptable(y, evaluate, passes)
      ensures Acceptable(x, evaluate, passes)
    {
      assert Passes(y, a);
      PassesDownwardClosed(x, y, a);
      assert Passes(x, a);
    }
    assert DownwardClosed(LargestSize(a), evaluate, passes);
    forall s | Passes(s, a) && WithinContracts(s, a.gates)
      ensures s < size + LargestSize(a) / SEARCH_RESOLUTION
    {
      PassingIsAffordable(s, a);
      PassingSizesAreWithinCap(s, a);
      assert Acceptable(s, evaluate, passes);
    }
  }

  method WalkAndVerify(cfg: Config, buyBook: Book, sellBook: Book, buyInst: Instrument, sellInst: Instrument,
                       expiry: int, now: int, buyAvail: Option<real>, sellAvail: Option<real>)
    returns (r: Result<WalkedTrade, Rejection>)
    ensures Verdict(r, cfg, buyBook, sellBook, buyInst, sellInst, expiry, now, buyAvail, sellAvail)
  {
    var gates := MakeGates(cfg, buyAvail);
    if gates.Err? {
      return Err(gates.error);
    }
    var spot := FirstSpot(buyBook, sellBook);
    if spot.None? {
      return Err(MarginUnavailable);
    }
    var dte := DaysToExpiry(expiry, now);
    if dte <= 0.0 {
      return Err(ExpiryInvalid);
    }
    var a := Attempt(buyBook.asks, sellBook.bids, buyInst, sellInst, gates.value, spot.value, dte);
    var largest := LargestSize(a);
    if largest <= 0.0 {
      return Err(EmptyBook);
    }
    var evaluate := size => PriceAtSize(size, a);
    var passes := t => ClearsGates(t, a.gates);
    var best, size := LargestPassingSize(largest, evaluate, passes);
    assert Passes(largest, a) ==> Acceptable(largest, evaluate, passes);
    if OrderedBooks(a) {
      SearchIsNearOptimal(size, a, evaluate, passes);
    }
    r := if best.None? then Err(AprDropped) else FinalChecks(best.value, a.gates, buyInst, sellInst, sellAvail);
    assert Decided(r, size, best, a, sellAvail);
    if r.Ok? {
      DecidedIsAuthorised(cfg, buyAvail, r.value, size, a, sellAvail);
    }
  }

  // "empty_book": when the starting size is not positive no size at all passes.
  lemma EmptyBookRejectsNothingPassing(a: Attempt, s: real)
    requires OrderedBooks(a) && LargestSize(a) <= 0.0
    ensures !(Passes(s, a) && WithinContracts(s, a.gates))
  {
    if Passes(s, a) && WithinContracts(s, a.gates) {
      PassingIsAffordable(s, a);
      PassingSizesAreWithinCap(s, a);
    }
  }

  // ---------------------------------------------------------------------------------------------
  // Which floors reject justly
  // ---------------------------------------------------------------------------------------------

  // Among passing sizes the premium, the quantity and the margin grow with the size.
  lemma FiguresGrowWithSize(x: real, y: real, a: Attempt)
    requires OrderedBooks(a) && 0.0 < x <= y && Passes(y, a)
    ensures Passes(x, a)
    ensures var ex, ey := PriceAtSize(x, a).value.economics, PriceAtSize(y, a).value.economics;
      && ex.buyPremium <= ey.buyPremium && ex.tradeableSize == x && ey.tradeableSize == y
      && var margin := SellMarginPerUnit(a.spot, a.sellInst.strike, a.sellInst.optionType);
      0.0 < margin && ex.shortMargin == Times(margin, x) && ey.shortMargin == Times(margin, y)
  {
    PassesDownwardClosed(x, y, a);
    PassesPerUnit(y, a);
    PassesPerUnit(x, a);
    BuyLimitImproves(x, y, a);
    ProductGrows(BuyLimit(x, a), BuyLimit(y, a), x, y);
    hide BuyLimit, SellLimit, Times, SellMarginPerUnit, WalkFilled, Vwap, UnitProfit, Fillable, OrderedBooks;
  }

  // A size rejected for its premium or its quantity hides no smaller size that would be accepted.
  lemma SizeFloorsRejectJustly(x: real, y: real, a: Attempt, sellAvail: Option<real>)
    requires OrderedBooks(a) && 0.0 < x <= y && Passes(y, a)
    requires FinalChecks(PriceAtSize(y, a).value, a.gates, a.buyInst, a.sellInst, sellAvail) in
      {Err(SizeTooSmall), Err(SizeBelowMinimum)}
    ensures Passes(x, a) && FinalChecks(PriceAtSize(x, a).value, a.gates, a.buyInst, a.sellInst, sellAvail).Err?
  {
    FiguresGrowWithSize(x, y, a);
    hide PriceAtSize, Passes;
  }

  // The profit floor does hide some: two contracts net 2 here and are turned down, one would net 11.
  lemma ProfitFloorHidesASmallerSize(a: Attempt)
    requires a.asks == [BookLevel(100.0, 1.0), BookLevel(120.0, 1.0)] && a.bids == [BookLevel(111.0, 2.0)]
    requires a.gates == Gates(0.0, 0.0, 5.0, 0.0, None, 0.0, 1000.0) && a.spot == 1000.0 && a.daysToExpiry == 1.0
    requires a.buyInst.takerFee == 0.0 && a.buyInst.minTradeAmount == 0.0
    requires a.sellInst == a.buyInst && a.sellInst.strike == 1000.0
    ensures LargestSize(a) == 2.0 && Passes(2.0, a) && Passes(1.0, a)
    ensures FinalChecks(PriceAtSize(2.0, a).value, a.gates, a.buyInst, a.sellInst, None) == Err(ProfitTooSmall)
    ensures FinalChecks(PriceAtSize(1.0, a).value, a.gates, a.buyInst, a.sellInst, None).Ok?
  {
    var asks, bids := a.asks, a.bids;
    assert asks[1..] == [BookLevel(120.0, 1.0)] && asks[1..][1..] == [] && bids[1..] == [];
    assert WalkFilled(1.0, asks) == 1.0 && WalkCost(1.0, asks) == 100.0;
    assert WalkFilled(1.0, asks[1..]) == 1.0 && WalkCost(1.0, asks[1..]) == 120.0;
    assert WalkFilled(2.0, asks) == 2.0 && WalkCost(2.0, asks) == 220.0;
    assert WalkFilled(1.0, bids) == 1.0 && WalkCost(1.0, bids) == 111.0;
    assert WalkFilled(2.0, bids) == 2.0 && WalkCost(2.0, bids) == 222.0;
    assert Depth(asks[1..]) == 1.0 && Depth(asks) == 2.0 && Depth(bids) == 2.0;
    assert BuyLimit(1.0, a) == 100.0 && BuyLimit(2.0, a) == 110.0;
    assert SellLimit(1.0, a) == 111.0 && SellLimit(2.0, a) == 111.0;
    assert SellMarginPerUnit(a.spot, a.sellInst.strike, a.sellInst.optionType) == 150.0;
    hide WalkFilled, WalkCost, Depth, BuyLimit, SellLimit, SellMarginPerUnit;
    assert PriceAtSize(1.0, a).Some? && PriceAtSize(1.0, a).value.economics.netProfit == 11.0;
    assert PriceAtSize(2.0, a).Some? && PriceAtSize(2.0, a).value.economics.netProfit == 2.0;
  }

  // The contract the pair is priced as, at a time.
  function ContractAt(buyBook: Book, sellBook: Book, buyInst: Instrument, sellInst: Instrument, expiry: int, now: int):
    Contract
  {
    Contract(buyInst.takerFee, sellInst.takerFee, FirstSpot(buyBook, sellBook), sellInst.strike, sellInst.optionType,
             DaysToExpiry(expiry, now))
  }

  lemma VerdictFacts(r: Result<WalkedTrade, Rejection>, cfg: Config, buyBook: Book, sellBook: Book,
                     buyInst: Instrument, sellInst: Instrument, expiry: int, now: int, buyAvail: Option<real>,
                     sellAvail: Option<real>)
    requires Verdict(r, cfg, buyBook, sellBook, buyInst, sellInst, expiry, now, buyAvail, sellAvail)
    ensures r.Err? ==> r.error != BothLegsFailed
    ensures r.Ok? ==> Authorised(r.value, cfg, buyInst, sellInst, buyAvail, sellAvail,
                                 ContractAt(buyBook, sellBook, buyInst, sellInst, expiry, now))
  {
    hide Authorised, SearchResult, LargestSize, DaysToExpiry;
  }
}

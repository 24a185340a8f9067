// From an authorised trade to its recorded profit: simulated fills
// (backend/src/option_arb/exchanges/slippage.py) and the books kept by _finalize_filled
// (backend/src/option_arb/services/executor.py).
module Settlement {
  import opened OptionEconomics
  import opened OrderBook
  import opened Orders
  import opened RealArithmetic
  import opened TradeSizing
  import opened Wrappers

  // ---------------------------------------------------------------------------------------------
  // Paper venue
  // ---------------------------------------------------------------------------------------------

  function RejectedResult(): OrderResult {
    OrderResult(Rejected, 0.0, 0.0)
  }

  // One simulated IOC order.  The two random draws (rejection and price noise) are inputs.
  function Simulate(order: OrderRequest, book: Book, rejectProb: real, rejectDraw: real, noise: real): OrderResult {
    if rejectDraw < rejectProb then RejectedResult()
    else
      var levels := if order.side == Buy then book.asks else book.bids;
      var filled := WalkFilled(order.size, levels);
      if filled <= 0.0 then RejectedResult()
      else
        var fillPrice := Times(Vwap(order.size, levels), 1.0 + noise);
        if order.side == Buy && fillPrice > order.limitPrice then RejectedResult()
        else if order.side == Sell && fillPrice < order.limitPrice then RejectedResult()
        else OrderResult(if filled >= order.size then Filled else Partial, filled, fillPrice)
  }

  // A price no worse than the limit.
  predicate WithinLimit(side: Side, price: real, limit: real) {
    match side
    case Buy => price <= limit
    case Sell => price >= limit
  }

  // What the executor relies on from any venue answering an IOC order.
  predicate HonoursOrder(order: OrderRequest, r: OrderResult) {
    && 0.0 <= r.filledSize <= order.size
    && (LegOk(r) ==> WithinLimit(order.side, r.filledPrice, order.limitPrice))
    && (r.status == Filled ==> r.filledSize == order.size)
    && (!LegOk(r) ==> r.filledSize == 0.0)
  }

  // The paper venue is such a venue, on every book, with every draw of the noise; an order is
  // filled in full exactly when it is not rejected and the book is deep enough.
  lemma SimulateHonoursOrder(order: OrderRequest, book: Book, rejectProb: real, rejectDraw: real, noise: real)
    requires order.size > 0.0
    requires NonNegativeSizes(book.asks) && NonNegativeSizes(book.bids)
    ensures var r := Simulate(order, book, rejectProb, rejectDraw, noise);
      && HonoursOrder(order, r)
      && (r.status == Filled <==>
          LegOk(r) && order.size <= Depth(if order.side == Buy then book.asks else book.bids))
  {
    WalkFillsMinOfSizeAndDepth(order.size, book.asks);
    WalkFillsMinOfSizeAndDepth(order.size, book.bids);
  }

  lemma PaidWithNoise(cost: real, filled: real, factor: real)
    requires filled != 0.0
    ensures Times(Times(cost / filled, factor), filled) == Times(cost, factor)
  {
    DivMul(cost, filled);
    assert cost / filled * factor * filled == cost / filled * filled * factor;
  }

  // Not rejected at random, an order fills as far as the book goes, at the cost of walking it with the
  // noise on top, or not at all because that average misses the limit.
  lemma SimulateFills(order: OrderRequest, book: Book, rejectProb: real, rejectDraw: real, noise: real)
    requires order.size > 0.0
    requires NonNegativeSizes(book.asks) && NonNegativeSizes(book.bids)
    ensures var r := Simulate(order, book, rejectProb, rejectDraw, noise);
      var levels := if order.side == Buy then book.asks else book.bids;
      var filled := Min(order.size, Depth(levels));
      && (!LegOk(r) ==> r == OrderResult(Rejected, 0.0, 0.0))
      && (LegOk(r) <==> (
            && rejectProb <= rejectDraw && 0.0 < filled
            && WithinLimit(order.side, Times(WalkCost(order.size, levels) / filled, 1.0 + noise), order.limitPrice)))
      && (LegOk(r) ==>
            && r.filledSize == filled && r.filledPrice == Times(WalkCost(order.size, levels) / filled, 1.0 + noise)
            && Times(r.filledPrice, r.filledSize) == Times(WalkCost(order.size, levels), 1.0 + noise))
  {
    var levels := if order.side == Buy then book.asks else book.bids;
    var filled := Min(order.size, Depth(levels));
    WalkFillsMinOfSizeAndDepth(order.size, levels);
    if filled > 0.0 {
      PaidWithNoise(WalkCost(order.size, levels), filled, 1.0 + noise);
    }
    hide Times, WalkCost, WalkFilled, Depth;
  }

  // A request within the best level walks at its price.
  lemma TouchPrice(size: real, levels: seq<BookLevel>)
    requires levels != [] && NonNegativeSizes(levels) && 0.0 < size <= levels[0].size
    ensures Min(size, Depth(levels)) == size && WalkCost(size, levels) / size == levels[0].price
  {
    DepthNonNegative(levels[1..]);
    WalkCostStep(size, levels, size, 0.0, levels[1..]);
    NothingToWalk(0.0, levels[1..]);
    QuotientUnique(Times(size, levels[0].price), size, levels[0].price);
  }

  // ---------------------------------------------------------------------------------------------
  // Recorded profit
  // ---------------------------------------------------------------------------------------------

  function Notional(r: OrderResult): real {
    Times(r.filledPrice, r.filledSize)
  }

  function TotalFees(buy: OrderResult, sell: OrderResult, buyFee: real, sellFee: real): real {
    Times(Notional(buy), buyFee) + Times(Notional(sell), sellFee)
  }

  function NetPnl(buy: OrderResult, sell: OrderResult, buyFee: real, sellFee: real): real {
    Notional(sell) - Notional(buy) - TotalFees(buy, sell, buyFee, sellFee)
  }

  function BuyOrder(t: WalkedTrade): OrderRequest {
    OrderRequest(Buy, t.economics.tradeableSize, t.buyLimit)
  }

  function SellOrder(t: WalkedTrade): OrderRequest {
    OrderRequest(Sell, t.economics.tradeableSize, t.sellLimit)
  }

  // Fills of any two sizes: what selling brings after its venue's fee less what buying costs with its own.
  lemma NetPnlIsCash(buy: OrderResult, sell: OrderResult, buyFee: real, sellFee: real)
    ensures NetPnl(buy, sell, buyFee, sellFee)
         == Times(Times(sell.filledPrice, sell.filledSize), 1.0 - sellFee)
          - Times(Times(buy.filledPrice, buy.filledSize), 1.0 + buyFee)
  {
    TimesSplit(1.0, sellFee, 1.0 - sellFee, Notional(sell));
    TimesSplit(1.0 + buyFee, 1.0, buyFee, Notional(buy));
    assert Times(Notional(sell), 1.0) == Notional(sell) && Times(Notional(buy), 1.0) == Notional(buy);
    hide Times;
  }

  lemma NetPnlPerUnit(buy: OrderResult, sell: OrderResult, c: Contract)
    requires buy.filledSize == sell.filledSize
    ensures NetPnl(buy, sell, c.buyFee, c.sellFee)
         == Times(UnitProfit(buy.filledPrice, sell.filledPrice, c), buy.filledSize)
  {
    ProfitPerUnit(buy.filledPrice, sell.filledPrice, buy.filledSize, c);
    hide Times, UnitProfit;
  }

  // The verified profit is that of both limit prices at the authorised size.
  predicate Sound(t: WalkedTrade, c: Contract) {
    && Priceable(c) && t.buyLimit > 0.0 && t.sellLimit > 0.0 && t.economics.tradeableSize > 0.0
    && t.economics.netProfit == Times(UnitProfit(t.buyLimit, t.sellLimit, c), t.economics.tradeableSize) > 0.0
  }

  lemma AuthorisedIsSound(t: WalkedTrade, cfg: Config, buyInst: Instrument, sellInst: Instrument,
                          buyAvail: Option<real>, sellAvail: Option<real>, c: Contract)
    requires Authorised(t, cfg, buyInst, sellInst, buyAvail, sellAvail, c)
    ensures Sound(t, c)
  {
    hide Times, UnitProfit, Priceable;
  }

  lemma UnitProfitWithinLimits(bp: real, buyLimit: real, sp: real, sellLimit: real, c: Contract)
    requires c.buyFee >= 0.0 && c.sellFee >= 0.0
    requires bp <= buyLimit && 0.0 < buyLimit && 0.0 < sellLimit <= sp
    requires UnitProfit(buyLimit, sellLimit, c) > 0.0
    ensures UnitProfit(buyLimit, sellLimit, c) <= UnitProfit(bp, sp, c)
  {
    hide Times;
    UnitProfitImproves(buyLimit, buyLimit, sellLimit, sellLimit, c);
    TimesMono(sellLimit, sp, 1.0 - c.sellFee);
    TimesMono(bp, buyLimit, 1.0 + c.buyFee);
  }

  lemma EarningsStep(worst: real, actual: real, q: real, size: real)
    requires 0.0 < worst <= actual && 0.0 < q && 0.0 < size
    ensures Times(Times(actual, q), size) >= Times(Times(worst, size), q)
    ensures Times(actual, q) > 0.0
  {
    MulPositive(q, size);
    MulMono(worst, actual, q * size);
    MulPositive(actual, q);
    assert actual * q * size == actual * (q * size) && worst * size * q == worst * (q * size);
  }

  // Fills of equal size within both limits earn at least the verified profit, in proportion.
  lemma EqualFillsEarnVerifiedProfit(t: WalkedTrade, c: Contract, buy: OrderResult, sell: OrderResult)
    requires Sound(t, c)
    requires HonoursOrder(BuyOrder(t), buy) && HonoursOrder(SellOrder(t), sell)
    requires LegOk(buy) && LegOk(sell) && buy.filledSize == sell.filledSize
    ensures Times(NetPnl(buy, sell, c.buyFee, c.sellFee), t.economics.tradeableSize)
         >= Times(t.economics.netProfit, buy.filledSize)
    ensures NetPnl(buy, sell, c.buyFee, c.sellFee) > 0.0
  {
    hide Times, UnitProfit, NetPnl;
    var worst, actual := UnitProfit(t.buyLimit, t.sellLimit, c), UnitProfit(buy.filledPrice, sell.filledPrice, c);
    ProductSign(worst, t.economics.tradeableSize);
    UnitProfitWithinLimits(buy.filledPrice, t.buyLimit, sell.filledPrice, t.sellLimit, c);
    NetPnlPerUnit(buy, sell, c);
    EarningsStep(worst, actual, buy.filledSize, t.economics.tradeableSize);
  }

  // Two full fills earn at least the verified profit.
  lemma FullFillsEarnVerifiedProfit(t: WalkedTrade, c: Contract, buy: OrderResult, sell: OrderResult)
    requires Sound(t, c)
    requires HonoursOrder(BuyOrder(t), buy) && HonoursOrder(SellOrder(t), sell)
    requires buy.status == Filled && sell.status == Filled
    ensures NetPnl(buy, sell, c.buyFee, c.sellFee) >= t.economics.netProfit > 0.0
  {
    EqualFillsEarnVerifiedProfit(t, c, buy, sell);
    TimesCancel(t.economics.netProfit, NetPnl(buy, sell, c.buyFee, c.sellFee), t.economics.tradeableSize);
    hide Times, NetPnl, UnitProfit;
  }

  // The recorded outcome of two full fills: at least the verified profit, hence positive and above
  // the configured floor, for a premium within the configured cap and the known funds.
  predicate MeetsGuarantee(t: WalkedTrade, c: Contract, cfg: Config, buyAvail: Option<real>, buy: OrderResult,
                           sell: OrderResult)
  {
    var pnl, paid := NetPnl(buy, sell, c.buyFee, c.sellFee), Notional(buy);
    && pnl >= t.economics.netProfit > 0.0
    && pnl >= cfg.minNetProfit
    && paid <= cfg.maxBuyPremium
    && (buyAvail.Some? ==> paid <= buyAvail.value)
  }

  // End to end: an authorised trade whose legs both fill in full meets the guarantee.
  lemma FullFillsMeetTheGuarantee(t: WalkedTrade, cfg: Config, buyInst: Instrument, sellInst: Instrument,
                                  buyAvail: Option<real>, sellAvail: Option<real>, c: Contract,
                                  buy: OrderResult, sell: OrderResult)
    requires Authorised(t, cfg, buyInst, sellInst, buyAvail, sellAvail, c)
    requires HonoursOrder(BuyOrder(t), buy) && HonoursOrder(SellOrder(t), sell)
    requires buy.status == Filled && sell.status == Filled
    ensures MeetsGuarantee(t, c, cfg, buyAvail, buy, sell)
  {
    AuthorisedIsSound(t, cfg, buyInst, sellInst, buyAvail, sellAvail, c);
    FullFillsEarnVerifiedProfit(t, c, buy, sell);
    hide Times, NetPnl, UnitProfit;
    TimesMono(buy.filledPrice, t.buyLimit, t.economics.tradeableSize);
  }

  lemma ScaledComparison(p: real, x: real, y: real)
    requires p > 0.0
    ensures Times(p, x) <= Times(p, y) <==> x <= y
  {
    if x <= y {
      MulMono(x, y, p);
    } else {
      MulPositive(p, x - y);
    }
  }

  lemma PricedTrade(size: real, t: WalkedTrade, a: Attempt)
    requires PriceAtSize(size, a) == Some(t)
    ensures t.economics.tradeableSize == size > 0.0
    ensures t.buyLimit == BuyLimit(size, a) && t.sellLimit == SellLimit(size, a)
    ensures size <= WalkFilled(size, a.asks) && size <= WalkFilled(size, a.bids)
  {}

  lemma FullyWalked(size: real, levels: seq<BookLevel>)
    requires NonNegativeSizes(levels) && PositivePrices(levels)
    requires 0.0 < size <= WalkFilled(size, levels)
    ensures WalkFilled(size, levels) == size && 0.0 < Vwap(size, levels)
  {
    WalkFillsMinOfSizeAndDepth(size, levels);
    VwapPositive(size, levels);
  }

  // On the books it was sized on, an order that is not rejected at random fills in full exactly
  // when the price noise stays within the slippage allowance.
  lemma UnchangedAsksFill(size: real, t: WalkedTrade, a: Attempt, book: Book, rejectProb: real, rejectDraw: real,
                          noise: real)
    requires OrderedBooks(a) && PriceAtSize(size, a) == Some(t)
    requires book.asks == a.asks && rejectDraw >= rejectProb
    ensures Simulate(BuyOrder(t), book, rejectProb, rejectDraw, noise).status == Filled <==> noise <= a.gates.slippage
  {
    PricedTrade(size, t, a);
    FullyWalked(size, a.asks);
    hide Times, Vwap, WalkFilled, PriceAtSize;
    ScaledComparison(Vwap(size, a.asks), 1.0 + noise, 1.0 + a.gates.slippage);
  }

  lemma UnchangedBidsFill(size: real, t: WalkedTrade, a: Attempt, book: Book, rejectProb: real, rejectDraw: real,
                          noise: real)
    requires OrderedBooks(a) && PriceAtSize(size, a) == Some(t)
    requires book.bids == a.bids && rejectDraw >= rejectProb
    ensures Simulate(SellOrder(t), book, rejectProb, rejectDraw, noise).status == Filled <==> -a.gates.slippage <= noise
  {
    PricedTrade(size, t, a);
    FullyWalked(size, a.bids);
    hide Times, Vwap, WalkFilled, PriceAtSize;
    ScaledComparison(Vwap(size, a.bids), 1.0 - a.gates.slippage, 1.0 + noise);
  }

  // The same for paper trading, whatever the books have become and whatever noise is drawn.
  lemma PaperTradeMeetsTheGuarantee(t: WalkedTrade, cfg: Config, buyInst: Instrument, sellInst: Instrument,
                                    buyAvail: Option<real>, sellAvail: Option<real>, c: Contract,
                                    buyBook: Book, sellBook: Book, rejectProb: real,
                                    buyDraw: real, buyNoise: real, sellDraw: real, sellNoise: real)
    requires Authorised(t, cfg, buyInst, sellInst, buyAvail, sellAvail, c)
    requires NonNegativeSizes(buyBook.asks) && NonNegativeSizes(buyBook.bids)
    requires NonNegativeSizes(sellBook.asks) && NonNegativeSizes(sellBook.bids)
    requires Simulate(BuyOrder(t), buyBook, rejectProb, buyDraw, buyNoise).status == Filled
    requires Simulate(SellOrder(t), sellBook, rejectProb, sellDraw, sellNoise).status == Filled
    ensures MeetsGuarantee(t, c, cfg, buyAvail, Simulate(BuyOrder(t), buyBook, rejectProb, buyDraw, buyNoise),
                           Simulate(SellOrder(t), sellBook, rejectProb, sellDraw, sellNoise))
  {
    SimulateHonoursOrder(BuyOrder(t), buyBook, rejectProb, buyDraw, buyNoise);
    SimulateHonoursOrder(SellOrder(t), sellBook, rejectProb, sellDraw, sellNoise);
    FullFillsMeetTheGuarantee(t, cfg, buyInst, sellInst, buyAvail, sellAvail, c,
                              Simulate(BuyOrder(t), buyBook, rejectProb, buyDraw, buyNoise),
                              Simulate(SellOrder(t), sellBook, rejectProb, sellDraw, sellNoise));
  }
}

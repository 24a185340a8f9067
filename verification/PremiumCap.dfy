// What the cap on a trade's premium says about what buying costs
// (backend/src/option_arb/services/executor.py).
//
// The executor caps the premium of a trade by the configured maximum and by the funds known to be on
// the buying venue.  The venue's fee comes on top, so what buying costs is bounded by the cap and one
// fee, and some books make an authorised trade cost exactly that.
module PremiumCap {
  import opened OptionEconomics
  import opened OrderBook
  import opened Orders
  import opened ProfitLadder
  import opened RealArithmetic
  import opened TradeSizing
  import opened Wrappers

  // Everything a decision rests on besides the two books.
  datatype Setting = Setting(
    cfg: Config,
    buyInst: Instrument,
    sellInst: Instrument,
    spot: real,
    expiry: int,
    now: int,
    buyAvail: Option<real>,
    sellAvail: Option<real>)

  function Cap(k: Setting): real {
    if k.buyAvail.Some? then Min(k.cfg.maxBuyPremium, k.buyAvail.value) else k.cfg.maxBuyPremium
  }

  function MaxContracts(k: Setting): Option<real> {
    if k.cfg.maxContracts == Some(0.0) then None else k.cfg.maxContracts
  }

  function MinSize(k: Setting): real {
    Max(k.buyInst.minTradeAmount, k.sellInst.minTradeAmount)
  }

  function GatesOf(k: Setting): Gates {
    Gates(k.cfg.minAprPct, k.cfg.minBuyPremium, k.cfg.minNetProfit, k.cfg.minNetReturnPct, MaxContracts(k),
          k.cfg.slippagePct / 100.0, Cap(k))
  }

  function AttemptOn(k: Setting, asks: seq<BookLevel>, bids: seq<BookLevel>): Attempt {
    Attempt(asks, bids, k.buyInst, k.sellInst, GatesOf(k), k.spot, DaysToExpiry(k.expiry, k.now))
  }

  // What buying costs at the worst price the buy limit allows, the venue's fee included.
  function Outlay(t: WalkedTrade, k: Setting): real {
    t.economics.buyPremium + Times(t.economics.buyPremium, k.buyInst.takerFee)
  }

  function MostOutlay(k: Setting): real {
    Cap(k) + Times(Cap(k), k.buyInst.takerFee)
  }

  // On these books the executor authorises the trade.
  ghost predicate Authorises(k: Setting, buyBook: Book, sellBook: Book, t: WalkedTrade) {
    && FirstSpot(buyBook, sellBook) == Some(k.spot)
    && OrderedBooks(AttemptOn(k, buyBook.asks, sellBook.bids))
    && Verdict(Ok(t), k.cfg, buyBook, sellBook, k.buyInst, k.sellInst, k.expiry, k.now, k.buyAvail, k.sellAvail)
  }

  // Some size respects the minimum, the contract limit and the funds on the selling venue.
  predicate SomeSizeFits(k: Setting)
    requires 0.0 < k.spot
  {
    var margin := SellMarginPerUnit(k.spot, k.sellInst.strike, k.sellInst.optionType);
    if 0.0 < MinSize(k) then
      && (MaxContracts(k).Some? ==> MinSize(k) <= MaxContracts(k).value)
      && (k.sellAvail.Some? ==> Times(margin, MinSize(k)) <= k.sellAvail.value)
    else
      && (MaxContracts(k).Some? ==> 0.0 < MaxContracts(k).value)
      && (k.sellAvail.Some? ==> 0.0 < k.sellAvail.value)
  }

  // The settings that rule out no trade before the books are seen.
  predicate Admissible(k: Setting) {
    && 0.0 < k.spot && 0.0 < DaysToExpiry(k.expiry, k.now) && 0.0 <= k.sellInst.strike
    && 0.0 <= k.buyInst.takerFee && 0.0 <= k.sellInst.takerFee < 1.0
    && 0.0 < 1.0 + k.cfg.slippagePct / 100.0 && 0.0 < 1.0 - k.cfg.slippagePct / 100.0
    && 0.0 < Cap(k) && k.cfg.minBuyPremium <= Cap(k)
    && SomeSizeFits(k)
  }

  // ---------------------------------------------------------------------------------------------
  // Every authorised trade comes from an admissible setting and stays within the bound
  // ---------------------------------------------------------------------------------------------

  lemma DecidedSize(a: Attempt, size: real, winner: Option<WalkedTrade>, t: WalkedTrade, sellAvail: Option<real>)
    requires Decided(Ok(t), size, winner, a, sellAvail)
    ensures 0.0 < size <= LargestSize(a) && PriceAtSize(size, a) == Some(t) && Accepted(size, a, sellAvail)
  {
    hide PriceAtSize, LargestSize, Passes, AllPassingBelow;
  }

  // The size behind an authorised trade.
  lemma SizeOf(k: Setting, buyBook: Book, sellBook: Book, t: WalkedTrade) returns (size: real)
    requires Authorises(k, buyBook, sellBook, t)
    ensures var a := AttemptOn(k, buyBook.asks, sellBook.bids);
      && OrderedBooks(a) && 0.0 < size <= LargestSize(a) && PriceAtSize(size, a) == Some(t)
      && Accepted(size, a, k.sellAvail)
  {
    var a := AttemptOn(k, buyBook.asks, sellBook.bids);
    assert MakeGates(k.cfg, k.buyAvail) == Ok(a.gates);
    hide SearchResult;
    var winner, s :| Decided(Ok(t), s, winner, a, k.sellAvail);
    size := s;
    hide PriceAtSize, LargestSize, Passes, OrderedBooks, DaysToExpiry, FinalChecks;
    DecidedSize(a, s, winner, t, k.sellAvail);
  }

  lemma LargestRespectsContracts(a: Attempt)
    requires 0.0 < LargestSize(a)
    ensures WithinContracts(LargestSize(a), a.gates)
  {
    hide Times, Depth;
  }

  lemma PremiumIsPositive(size: real, a: Attempt)
    requires OrderedBooks(a) && Passes(size, a)
    ensures 0.0 < PriceAtSize(size, a).value.economics.buyPremium == Times(BuyLimit(size, a), size)
  {
    PassesPerUnit(size, a);
    TimesPositive(BuyLimit(size, a), size);
    hide BuyLimit, SellLimit, Times, SellMarginPerUnit, UnitProfit, OrderedBooks, WalkFilled, Vwap;
  }

  lemma AcceptedFacts(size: real, a: Attempt, sellAvail: Option<real>)
    requires OrderedBooks(a) && Accepted(size, a, sellAvail)
    ensures Passes(size, a) && Priceable(ContractOf(a)) && 0.0 < size
    ensures 0.0 < PriceAtSize(size, a).value.economics.buyPremium <= a.gates.cap
    ensures a.gates.minBuyPremium <= PriceAtSize(size, a).value.economics.buyPremium
    ensures var least := Max(a.buyInst.minTradeAmount, a.sellInst.minTradeAmount); 0.0 < least ==> least <= size
    ensures 0.0 < Margin(a) && (sellAvail.Some? ==> Times(Margin(a), size) <= sellAvail.value)
  {
    FloorsOf(size, a, sellAvail);
    PassesPerUnit(size, a);
    PremiumIsPositive(size, a);
    hide PriceAtSize, OrderedBooks, SellMarginPerUnit, Times, BuyLimit, SellLimit;
  }

  lemma SomeSizeDoes(k: Setting, size: real)
    requires 0.0 < k.spot && 0.0 < size
    requires 0.0 < MinSize(k) ==> MinSize(k) <= size
    requires MaxContracts(k).Some? ==> size <= MaxContracts(k).value
    requires var margin := SellMarginPerUnit(k.spot, k.sellInst.strike, k.sellInst.optionType);
      0.0 < margin && (k.sellAvail.Some? ==> Times(margin, size) <= k.sellAvail.value)
    ensures SomeSizeFits(k)
  {
    var margin := SellMarginPerUnit(k.spot, k.sellInst.strike, k.sellInst.optionType);
    hide SellMarginPerUnit, Times;
    TimesPositive(margin, size);
    if 0.0 < MinSize(k) {
      TimesMono(MinSize(k), size, margin);
    }
  }

  // Whatever is authorised comes from an admissible setting and costs at most the cap and one fee.
  lemma AuthorisedStaysWithinBound(k: Setting, buyBook: Book, sellBook: Book, t: WalkedTrade)
    requires Authorises(k, buyBook, sellBook, t)
    ensures Admissible(k) && Outlay(t, k) <= MostOutlay(k)
  {
    var size := SizeOf(k, buyBook, sellBook, t);
    var a := AttemptOn(k, buyBook.asks, sellBook.bids);
    hide Authorises, OrderedBooks, Accepted, LargestSize, PriceAtSize, Times, SellMarginPerUnit, DaysToExpiry, Passes;
    AcceptedFacts(size, a, k.sellAvail);
    ScalesArePositive(size, a);
    LargestRespectsContracts(a);
    SomeSizeDoes(k, size);
    TimesMono(t.economics.buyPremium, Cap(k), k.buyInst.takerFee);
  }

  // ---------------------------------------------------------------------------------------------
  // And some books reach the bound
  // ---------------------------------------------------------------------------------------------

  // A size that fits an admissible setting.
  function FittingSize(k: Setting): real
    requires 0.0 < k.spot
  {
    var margin := SellMarginPerUnit(k.spot, k.sellInst.strike, k.sellInst.optionType);
    if 0.0 < MinSize(k) then MinSize(k)
    else
      Min(if MaxContracts(k).Some? then MaxContracts(k).value else 1.0,
          if k.sellAvail.Some? && margin != 0.0 then k.sellAvail.value / margin else 1.0)
  }

  lemma PositiveQuotient(x: real, c: real)
    requires 0.0 < x && 0.0 < c
    ensures 0.0 < x / c
  {
    DivMul(x, c);
  }

  lemma FittingSizeFits(k: Setting)
    requires Admissible(k)
    ensures var q, margin := FittingSize(k), SellMarginPerUnit(k.spot, k.sellInst.strike, k.sellInst.optionType);
      && 0.0 < q && 0.0 < margin
      && (0.0 < MinSize(k) ==> MinSize(k) <= q)
      && (MaxContracts(k).Some? ==> q <= MaxContracts(k).value)
      && (k.sellAvail.Some? ==> Times(margin, q) <= k.sellAvail.value)
  {
    var margin := SellMarginPerUnit(k.spot, k.sellInst.strike, k.sellInst.optionType);
    MarginBounds(k.spot, k.sellInst.strike, k.sellInst.optionType);
    MulPositive(0.10, k.spot);
    hide SellMarginPerUnit, Times, DaysToExpiry;
    if k.sellAvail.Some? {
      FundsCap(FittingSize(k), margin, k.sellAvail.value);
      if 0.0 < k.sellAvail.value {
        PositiveQuotient(k.sellAvail.value, margin);
      }
    }
  }

  // A profit per contract that clears any return, yield and profit asked for.
  function AmpleProfit(size: real, capital: real, days: real, g: Gates): real
    requires 0.0 < size
  {
    1.0 + Max(g.minNetProfit, 0.0) / size + Times(capital, Max(g.minNetReturn, 0.0))
    + Times(capital, Times(days, Max(g.minApr, 0.0)))
  }

  lemma AmpleTerms(size: real, capital: real, days: real, g: Gates)
    requires 0.0 < size && 0.0 < capital && 0.0 < days
    ensures var u := AmpleProfit(size, capital, days, g);
      && 1.0 <= u && Max(g.minNetProfit, 0.0) / size <= u
      && Times(Max(g.minNetReturn, 0.0), capital) <= u && Times(Times(days, Max(g.minApr, 0.0)), capital) <= u
  {
    DivideByPositive(0.0, Max(g.minNetProfit, 0.0), size);
    TimesMono(0.0, Max(g.minNetReturn, 0.0), capital);
    TimesMono(0.0, Max(g.minApr, 0.0), days);
    TimesMono(0.0, Times(days, Max(g.minApr, 0.0)), capital);
    TimesZero(capital);
    TimesZero(days);
  }

  lemma AmpleProfitIsAmple(size: real, capital: real, days: real, g: Gates)
    requires 0.0 < size && 0.0 < capital && 0.0 < days
    ensures var u := AmpleProfit(size, capital, days, g);
      && 0.0 < u && g.minNetProfit <= Times(u, size)
      && u / capital * 100.0 >= g.minNetReturn
      && u / capital * 100.0 * 365.0 / days >= g.minApr
  {
    var u := AmpleProfit(size, capital, days, g);
    var rate := u / capital;
    AmpleTerms(size, capital, days, g);
    hide AmpleProfit;
    var profit, apr := Max(g.minNetProfit, 0.0), Max(g.minApr, 0.0);
    TimesMono(profit / size, u, size);
    DivMul(profit, size);
    DivMul(u, capital);
    TimesCancel(Max(g.minNetReturn, 0.0), rate, capital);
    TimesCancel(Times(days, apr), rate, capital);
    TimesMono(0.0, apr, days);
    TimesZero(days);
    DivideByPositive(Times(days, apr), rate * 100.0 * 365.0, days);
    QuotientUnique(Times(days, apr), days, apr);
    hide Times;
  }

  lemma OneLevelBook(price: real, size: real)
    requires 0.0 < price && 0.0 < size
    ensures var levels := [BookLevel(price, size)];
      && Ascending(levels) && Descending(levels) && NonNegativeSizes(levels) && PositivePrices(levels)
      && WalkFilled(size, levels) == size && Vwap(size, levels) == price && Depth(levels) == size
  {
    var levels := [BookLevel(price, size)];
    assert levels[1..] == [];
    var none := levels[1..];
    assert none == [] && Depth(levels) == size + Depth(none) && Depth(none) == 0.0;
    assert levels[0..] == levels && Min(levels[0].size, size) == size;
    WalkOneLevel(size, levels, 0, size);
    NothingToWalk(size - size, none);
    hide WalkCost, WalkFilled, Depth, Times;
    QuotientUnique(Times(size, price), size, price);
  }

  // One level on each side: the asks cost the whole cap at their limit, the bids leave an ample profit.
  function DearAsk(k: Setting): real
    requires Admissible(k) && FittingSize(k) != 0.0
  {
    Cap(k) / FittingSize(k) / (1.0 + k.cfg.slippagePct / 100.0)
  }

  function AmpleSellLimit(k: Setting): real
    requires Admissible(k) && 0.0 < FittingSize(k)
  {
    var q, b := FittingSize(k), Cap(k) / FittingSize(k);
    var margin := SellMarginPerUnit(k.spot, k.sellInst.strike, k.sellInst.optionType);
    var profit := AmpleProfit(q, margin + b, DaysToExpiry(k.expiry, k.now), GatesOf(k));
    (profit + Times(b, 1.0 + k.buyInst.takerFee)) / (1.0 - k.sellInst.takerFee)
  }

  function DearAttempt(k: Setting): Attempt
    requires Admissible(k) && 0.0 < FittingSize(k)
  {
    AttemptOn(k, [BookLevel(DearAsk(k), FittingSize(k))],
              [BookLevel(AmpleSellLimit(k) / (1.0 - k.cfg.slippagePct / 100.0), FittingSize(k))])
  }

  lemma ScaledBack(x: real, scale: real)
    requires 0.0 < x && 0.0 < scale
    ensures 0.0 < x / scale && Times(x / scale, scale) == x
  {
    DivMul(x, scale);
  }

  lemma AmpleSellLimitIsPositive(k: Setting)
    requires Admissible(k) && 0.0 < FittingSize(k)
    ensures var q, b := FittingSize(k), Cap(k) / FittingSize(k);
      var c := ContractOf(DearAttempt(k));
      var margin := SellMarginPerUnit(k.spot, k.sellInst.strike, k.sellInst.optionType);
      && 0.0 < margin && 0.0 < b && 0.0 < AmpleSellLimit(k)
      && UnitProfit(b, AmpleSellLimit(k), c) == AmpleProfit(q, margin + b, c.daysToExpiry, GatesOf(k))
  {
    var q, b := FittingSize(k), Cap(k) / FittingSize(k);
    var margin := SellMarginPerUnit(k.spot, k.sellInst.strike, k.sellInst.optionType);
    FittingSizeFits(k);
    hide SomeSizeFits, FittingSize, DaysToExpiry, SellMarginPerUnit;
    PositiveQuotient(Cap(k), q);
    AmpleTerms(q, margin + b, DaysToExpiry(k.expiry, k.now), GatesOf(k));
    TimesPositive(b, 1.0 + k.buyInst.takerFee);
    hide Times, AmpleProfit;
    var gain := AmpleProfit(q, margin + b, DaysToExpiry(k.expiry, k.now), GatesOf(k))
      + Times(b, 1.0 + k.buyInst.takerFee);
    ScaledBack(gain, 1.0 - k.sellInst.takerFee);
  }

  // The limit prices on these books.
  lemma DearLimits(k: Setting)
    requires Admissible(k) && 0.0 < FittingSize(k)
    ensures var a, q := DearAttempt(k), FittingSize(k);
      && OrderedBooks(a) && Fillable(q, a) && 0.0 < AmpleSellLimit(k) == SellLimit(q, a)
      && 0.0 < Cap(k) / q == BuyLimit(q, a) && Times(BuyLimit(q, a), q) == Cap(k)
      && Times(a.asks[0].price, 1.0 + a.gates.slippage) == BuyLimit(q, a)
      && Depth(a.asks) == q && Depth(a.bids) == q
  {
    var q := FittingSize(k);
    hide SomeSizeFits, FittingSize, DaysToExpiry, SellMarginPerUnit;
    ScaledBack(Cap(k), q);
    ScaledBack(Cap(k) / q, 1.0 + k.cfg.slippagePct / 100.0);
    AmpleSellLimitIsPositive(k);
    hide AmpleSellLimit, Times;
    ScaledBack(AmpleSellLimit(k), 1.0 - k.cfg.slippagePct / 100.0);
    OneLevelBook(DearAsk(k), q);
    OneLevelBook(AmpleSellLimit(k) / (1.0 - k.cfg.slippagePct / 100.0), q);
    hide Vwap, Depth;
  }

  lemma LargestIsOffered(a: Attempt, q: real, worst: real)
    requires a.asks != [] && a.bids != [] && Depth(a.asks) == q && Depth(a.bids) == q
    requires worst == Times(a.asks[0].price, 1.0 + a.gates.slippage) && 0.0 < worst && a.gates.cap == Times(worst, q)
    requires WithinContracts(q, a.gates)
    ensures LargestSize(a) == q
  {
    QuotientUnique(a.gates.cap, worst, q);
    hide Depth;
  }

  // They make the executor buy that size at the whole cap.
  lemma DearIsAccepted(k: Setting)
    requires Admissible(k) && 0.0 < FittingSize(k)
    ensures var a, q := DearAttempt(k), FittingSize(k);
      && OrderedBooks(a) && Accepted(q, a, k.sellAvail)
      && PriceAtSize(q, a).Some? && PriceAtSize(q, a).value.economics.buyPremium == Cap(k)
      && LargestSize(a) == q
  {
    var a, q := DearAttempt(k), FittingSize(k);
    var c, b := ContractOf(a), Cap(k) / q;
    var margin := SellMarginPerUnit(k.spot, c.strike, c.optionType);
    FittingSizeFits(k);
    DearLimits(k);
    AmpleSellLimitIsPositive(k);
    AmpleProfitIsAmple(q, margin + b, c.daysToExpiry, GatesOf(k));
    hide FittingSize, SellMarginPerUnit, UnitProfit, DearAsk, AmpleSellLimit, AmpleProfit, Times, SomeSizeFits,
      BuyLimit, SellLimit, DaysToExpiry;
    LargestIsOffered(a, q, BuyLimit(q, a));
    hide LargestSize;
    PassesPerUnit(q, a);
    PremiumIsPositive(q, a);
    CalculatePerUnit(BuyLimit(q, a), SellLimit(q, a), q, c);
    FloorsOf(q, a, k.sellAvail);
  }

  lemma LargestIsDecided(a: Attempt, sellAvail: Option<real>, t: WalkedTrade)
    requires OrderedBooks(a) && 0.0 < LargestSize(a) && PriceAtSize(LargestSize(a), a) == Some(t)
    requires Accepted(LargestSize(a), a, sellAvail)
    ensures Decided(Ok(t), LargestSize(a), Some(t), a, sellAvail)
  {
    forall s | Passes(s, a) && WithinContracts(s, a.gates)
      ensures s < LargestSize(a) + LargestSize(a) / SEARCH_RESOLUTION
    {
      PassingSizesAreWithinCap(s, a);
    }
    hide LargestSize, PriceAtSize, OrderedBooks, Passes;
  }

  lemma DearIsAuthorised(k: Setting) returns (buyBook: Book, sellBook: Book, t: WalkedTrade)
    requires Admissible(k)
    ensures Authorises(k, buyBook, sellBook, t) && Outlay(t, k) == MostOutlay(k)
  {
    FittingSizeFits(k);
    DearIsAccepted(k);
    var a := DearAttempt(k);
    hide FittingSize, SellMarginPerUnit, DearAsk, AmpleSellLimit, SomeSizeFits, LargestSize, PriceAtSize, Accepted, Times,
      OrderedBooks, DaysToExpiry;
    buyBook, sellBook := Book([], a.asks, Some(k.spot)), Book(a.bids, [], Some(k.spot));
    t := PriceAtSize(FittingSize(k), a).value;
    LargestIsDecided(a, k.sellAvail, t);
    hide DearAttempt;
    assert MakeGates(k.cfg, k.buyAvail) == Ok(a.gates);
    DecidedIsAuthorised(k.cfg, k.buyAvail, t, LargestSize(a), a, k.sellAvail);
    hide Decided, Authorised;
  }

  // ---------------------------------------------------------------------------------------------
  // What the cap covers
  // ---------------------------------------------------------------------------------------------

  // Whatever the books, buying costs no more than the limit.
  ghost predicate CostsAtMost(k: Setting, limit: real) {
    forall buyBook, sellBook, t :: Authorises(k, buyBook, sellBook, t) ==> Outlay(t, k) <= limit
  }

  // The cap and one fee on it is the exact bound on what buying costs.
  lemma CostsAtMostIff(k: Setting, limit: real)
    ensures CostsAtMost(k, limit) <==> (Admissible(k) ==> MostOutlay(k) <= limit)
  {
    hide Authorises, Outlay, MostOutlay, Admissible;
    if Admissible(k) {
      var buyBook, sellBook, t := DearIsAuthorised(k);
      assert CostsAtMost(k, limit) ==> MostOutlay(k) <= limit;
    }
    forall buyBook, sellBook, t | Authorises(k, buyBook, sellBook, t)
      ensures Admissible(k) && Outlay(t, k) <= MostOutlay(k)
    {
      AuthorisedStaysWithinBound(k, buyBook, sellBook, t);
    }
  }

  // A trade is authorised on some books exactly under an admissible setting.
  lemma AuthorisesSomeIff(k: Setting)
    ensures (exists buyBook, sellBook, t :: Authorises(k, buyBook, sellBook, t)) <==> Admissible(k)
  {
    hide Authorises, Admissible;
    if Admissible(k) {
      var buyBook, sellBook, t := DearIsAuthorised(k);
    }
    forall buyBook, sellBook, t | Authorises(k, buyBook, sellBook, t)
      ensures Admissible(k)
    {
      AuthorisedStaysWithinBound(k, buyBook, sellBook, t);
    }
  }

  lemma FeeSign(x: real, fee: real)
    requires 0.0 < x && 0.0 <= fee
    ensures 0.0 <= Times(x, fee) && (Times(x, fee) == 0.0 <==> fee == 0.0)
  {}

  // The cap itself covers what buying costs only on a venue without a fee.
  lemma CapCoversIff(k: Setting)
    requires Admissible(k)
    ensures CostsAtMost(k, Cap(k)) <==> k.buyInst.takerFee == 0.0
  {
    CostsAtMostIff(k, Cap(k));
    hide CostsAtMost;
    FeeSign(Cap(k), k.buyInst.takerFee);
    hide Times, SomeSizeFits, DaysToExpiry;
  }

  // The funds known to be there cover it exactly when there is no fee or the configured maximum and its
  // fee fit in them.
  lemma FundsCoverIff(k: Setting)
    requires Admissible(k) && k.buyAvail.Some?
    ensures CostsAtMost(k, k.buyAvail.value) <==>
      k.buyInst.takerFee == 0.0
      || k.cfg.maxBuyPremium + Times(k.cfg.maxBuyPremium, k.buyInst.takerFee) <= k.buyAvail.value
  {
    CostsAtMostIff(k, k.buyAvail.value);
    hide CostsAtMost;
    FeeSign(Cap(k), k.buyInst.takerFee);
    FeeSign(k.cfg.maxBuyPremium, k.buyInst.takerFee);
    hide Times, SomeSizeFits, DaysToExpiry;
  }
}

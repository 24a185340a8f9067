// Canonical economics of one cross-venue pair (backend/src/option_arb/economics.py).
module OptionEconomics {
  import opened RealArithmetic
  import opened Wrappers

  const MICROSECONDS_PER_DAY := 86400000000.0

  datatype OptionType = Call | Put

  datatype Economics = Economics(
    tradeableSize: real,
    buyPremium: real,
    sellPremium: real,
    shortMargin: real,
    capitalRequired: real,
    grossProfit: real,
    fees: real,
    netProfit: real,
    priceSpreadPct: real,
    netReturnPct: real,
    aprPct: real)

  // Everything calculate_option_economics needs besides the two prices and the quantity.
  datatype Contract = Contract(
    buyFee: real,
    sellFee: real,
    spot: Option<real>,
    strike: real,
    optionType: OptionType,
    daysToExpiry: real)

  // Times are integers counting microseconds.
  function DaysToExpiry(expiry: int, now: int): real {
    (expiry - now) as real / MICROSECONDS_PER_DAY
  }

  // A day has 24 hours of 60 minutes of 60 seconds.
  lemma DaysCounted(now: int, days: int)
    ensures DaysToExpiry(now + days * (24 * 60 * 60 * 1000000), now) == days as real
  {}

  // An expiry is reached, and a number of days exceeded, as the clock says.
  lemma DaysCompare(expiry: int, now: int, days: real)
    ensures DaysToExpiry(expiry, now) <= days <==> (expiry - now) as real <= days * (24 * 60 * 60 * 1000000) as real
    ensures DaysToExpiry(expiry, now) <= 0.0 <==> expiry <= now
  {
    var left, day := (expiry - now) as real, MICROSECONDS_PER_DAY;
    DivMul(left, day);
    assert day == (24 * 60 * 60 * 1000000) as real;
  }

  // How far out of the money the option is, as a fraction of spot.
  function OtmFraction(spot: real, strike: real, optionType: OptionType): (otm: real)
    requires spot > 0.0
    ensures 0.0 <= otm
  {
    match optionType
    case Call => Max(0.0, (strike - spot) / spot)
    case Put => Max(0.0, (spot - strike) / spot)
  }

  function SellMarginPerUnit(spot: real, strike: real, optionType: OptionType): (margin: real)
    requires spot > 0.0
  {
    Max(0.15 - OtmFraction(spot, strike, optionType), 0.10) * spot
  }

  lemma QuotientSign(x: real, c: real)
    requires x <= 0.0 && 0.0 < c
    ensures x / c <= 0.0
  {
    DivMul(x, c);
    MulCancel(x / c, 0.0, c);
  }

  lemma RateBounds(rate: real, spot: real)
    requires 0.10 <= rate <= 0.15 && spot > 0.0
    ensures 0.10 * spot <= rate * spot <= 0.15 * spot
  {
    MulMono(0.10, rate, spot);
    MulMono(rate, 0.15, spot);
  }

  // A standalone short option ties up between 10% and 15% of spot, and the full 15% at or in the money.
  lemma MarginBounds(spot: real, strike: real, optionType: OptionType)
    requires spot > 0.0
    ensures 0.10 * spot <= SellMarginPerUnit(spot, strike, optionType) <= 0.15 * spot
    ensures (optionType.Call? && strike <= spot) || (optionType.Put? && spot <= strike) ==>
      SellMarginPerUnit(spot, strike, optionType) == 0.15 * spot
  {
    var otm := OtmFraction(spot, strike, optionType);
    RateBounds(Max(0.15 - otm, 0.10), spot);
    if (optionType.Call? && strike <= spot) || (optionType.Put? && spot <= strike) {
      var excess := if optionType.Call? then strike - spot else spot - strike;
      QuotientSign(excess, spot);
    }
  }

  // How much worse than spot the strike is for whoever exercises.
  function OutOfTheMoney(spot: real, strike: real, optionType: OptionType): real {
    Max(if optionType == Call then strike - spot else spot - strike, 0.0)
  }

  lemma ScaledMax(a: real, b: real, k: real)
    requires 0.0 < k
    ensures Max(a, b) * k == Max(a * k, b * k)
  {
    if a < b {
      MulMono(a, b, k);
    } else {
      MulMono(b, a, k);
    }
  }

  // The margin of one contract in dollars: 15% of spot less what the option is out of the money, and
  // never below 10% of spot, which it falls to at 5% out of the money.
  lemma MarginInDollars(spot: real, strike: real, optionType: OptionType)
    requires spot > 0.0
    ensures var margin := SellMarginPerUnit(spot, strike, optionType);
      && margin == Max(0.15 * spot - OutOfTheMoney(spot, strike, optionType), 0.10 * spot)
      && (margin == 0.10 * spot <==> 0.05 * spot <= OutOfTheMoney(spot, strike, optionType))
  {
    var gap := if optionType == Call then strike - spot else spot - strike;
    var otm := OtmFraction(spot, strike, optionType);
    DivMul(gap, spot);
    ScaledMax(gap / spot, 0.0, spot);
    assert otm * spot == OutOfTheMoney(spot, strike, optionType);
    ScaledMax(0.15 - otm, 0.10, spot);
    hide OtmFraction;
    assert (0.15 - otm) * spot == 0.15 * spot - otm * spot;
  }

  // True when the calculation is defined for a contract whatever the (positive) prices and size.
  predicate Priceable(c: Contract) {
    && c.spot.Some? && c.spot.value > 0.0
    && c.daysToExpiry > 0.0
    && c.strike >= 0.0 && c.buyFee >= 0.0 && c.sellFee >= 0.0
  }

  function Calculate(buyPrice: real, sellPrice: real, quantity: real, c: Contract): Option<Economics> {
    if !Priceable(c) || buyPrice <= 0.0 || sellPrice <= 0.0 || quantity <= 0.0 then None
    else
      var buyPremium := Times(buyPrice, quantity);
      var sellPremium := Times(sellPrice, quantity);
      var grossProfit := sellPremium - buyPremium;
      var fees := Times(buyPremium, c.buyFee) + Times(sellPremium, c.sellFee);
      var netProfit := grossProfit - fees;
      var shortMargin := Times(SellMarginPerUnit(c.spot.value, c.strike, c.optionType), quantity);
      var capital := shortMargin + buyPremium;
      if capital <= 0.0 then None
      else
        var netReturn := netProfit / capital * 100.0;
        Some(Economics(quantity, buyPremium, sellPremium, shortMargin, capital, grossProfit, fees, netProfit,
                       grossProfit / buyPremium * 100.0, netReturn, netReturn * 365.0 / c.daysToExpiry))
  }

  // Profit of one contract after fees at the given prices.
  function UnitProfit(buyPrice: real, sellPrice: real, c: Contract): real {
    Times(sellPrice, 1.0 - c.sellFee) - Times(buyPrice, 1.0 + c.buyFee)
  }

  lemma MarginPositive(c: Contract)
    requires Priceable(c)
    ensures 0.0 < SellMarginPerUnit(c.spot.value, c.strike, c.optionType)
  {
    MarginBounds(c.spot.value, c.strike, c.optionType);
    MulPositive(0.10, c.spot.value);
  }

  // The calculation is defined exactly for priceable contracts at positive prices and sizes.
  lemma CalculateDefined(buyPrice: real, sellPrice: real, quantity: real, c: Contract)
    ensures Calculate(buyPrice, sellPrice, quantity, c).Some? <==>
      Priceable(c) && buyPrice > 0.0 && sellPrice > 0.0 && quantity > 0.0
  {
    if Priceable(c) && buyPrice > 0.0 && sellPrice > 0.0 && quantity > 0.0 {
      MarginPositive(c);
      TimesPositive(SellMarginPerUnit(c.spot.value, c.strike, c.optionType), quantity);
      TimesPositive(buyPrice, quantity);
      hide Times, SellMarginPerUnit;
    }
  }

  // What the figures mean, in products: the yearly rate over the days is a year of the return, the return
  // over the capital is the profit, the price spread over the premium is the gross profit.
  lemma CalculateReports(buyPrice: real, sellPrice: real, quantity: real, c: Contract)
    requires Calculate(buyPrice, sellPrice, quantity, c).Some?
    ensures var e := Calculate(buyPrice, sellPrice, quantity, c).value;
      && e.tradeableSize == quantity
      && e.buyPremium == Times(buyPrice, quantity) && e.sellPremium == Times(sellPrice, quantity)
      && e.grossProfit == e.sellPremium - e.buyPremium
      && e.netProfit + e.fees == e.grossProfit
      && e.capitalRequired == e.buyPremium + e.shortMargin && 0.0 < e.shortMargin
      && Times(e.priceSpreadPct, e.buyPremium) == 100.0 * e.grossProfit
      && Times(e.netReturnPct, e.capitalRequired) == 100.0 * e.netProfit
      && Times(e.aprPct, c.daysToExpiry) == 365.0 * e.netReturnPct
  {
    var e := Calculate(buyPrice, sellPrice, quantity, c).value;
    MarginPositive(c);
    TimesPositive(SellMarginPerUnit(c.spot.value, c.strike, c.optionType), quantity);
    TimesPositive(buyPrice, quantity);
    PercentTimes(e.grossProfit, e.buyPremium);
    PercentTimes(e.netProfit, e.capitalRequired);
    DivMul(e.netReturnPct * 365.0, c.daysToExpiry);
    hide SellMarginPerUnit;
  }

  lemma ProfitPerUnit(b: real, s: real, q: real, c: Contract)
    ensures Times(s, q) - Times(b, q) - (Times(Times(b, q), c.buyFee) + Times(Times(s, q), c.sellFee))
         == Times(UnitProfit(b, s, c), q)
  {
    assert s * q - b * q - (b * q * c.buyFee + s * q * c.sellFee)
        == (s * (1.0 - c.sellFee) - b * (1.0 + c.buyFee)) * q;
  }

  lemma QuotientUnique(x: real, c: real, r: real)
    requires c != 0.0 && x == r * c
    ensures x / c == r
  {}

  lemma ReturnPerUnit(u: real, k: real, q: real)
    requires 0.0 < k && 0.0 < q
    ensures 0.0 < Times(k, q) && Times(u, q) / Times(k, q) == u / k
  {
    var r := u / k;
    DivMul(u, k);
    MulPositive(k, q);
    assert u * q == r * (k * q);
    QuotientUnique(u * q, k * q, r);
  }

  // Everything it reports is the per-unit figure scaled by the quantity.
  lemma CalculatePerUnit(buyPrice: real, sellPrice: real, quantity: real, c: Contract)
    requires Calculate(buyPrice, sellPrice, quantity, c).Some?
    ensures var e := Calculate(buyPrice, sellPrice, quantity, c).value;
      var margin := SellMarginPerUnit(c.spot.value, c.strike, c.optionType);
      && 0.0 < margin
      && e.netProfit == Times(UnitProfit(buyPrice, sellPrice, c), quantity)
      && e.capitalRequired == Times(margin + buyPrice, quantity)
      && e.netReturnPct == UnitProfit(buyPrice, sellPrice, c) / (margin + buyPrice) * 100.0
  {
    var margin := SellMarginPerUnit(c.spot.value, c.strike, c.optionType);
    MarginPositive(c);
    hide SellMarginPerUnit;
    ProfitPerUnit(buyPrice, sellPrice, quantity, c);
    TimesSplit(margin + buyPrice, margin, buyPrice, quantity);
    ReturnPerUnit(UnitProfit(buyPrice, sellPrice, c), margin + buyPrice, quantity);
    hide Times, UnitProfit;
  }
}

// When a rejection by the executor's floors hides an acceptable smaller size
// (backend/src/option_arb/services/executor.py).
//
// The net profit of a size is what walking both books brings in and costs, after slippage and fees.
// Laid side by side the two books form a ladder of unit profits, and the largest size whose profit
// reaches a floor is read off it.
module ProfitLadder {
  import opened OptionEconomics
  import opened OrderBook
  import opened Orders
  import opened RealArithmetic
  import opened TradeSizing
  import opened Wrappers

  // ---------------------------------------------------------------------------------------------
  // The deepest level a walk touches
  // ---------------------------------------------------------------------------------------------

  function LastPrice(size: real, levels: seq<BookLevel>): real
    decreases |levels|
  {
    if levels == [] then 0.0
    else if size <= levels[0].size then levels[0].price
    else LastPrice(size - levels[0].size, levels[1..])
  }

  // How much the walk takes there.
  function LastTake(size: real, levels: seq<BookLevel>): real
    decreases |levels|
  {
    if levels == [] then 0.0
    else if size <= levels[0].size then size
    else LastTake(size - levels[0].size, levels[1..])
  }

  lemma {:induction false} LastTakeIsPositive(size: real, levels: seq<BookLevel>)
    requires NonNegativeSizes(levels) && 0.0 < size <= Depth(levels)
    ensures 0.0 < LastTake(size, levels) <= size
    decreases |levels|
  {
    if levels[0].size < size {
      LastTakeIsPositive(size - levels[0].size, levels[1..]);
    }
  }

  // The last units cost what the deepest level asks.
  lemma {:induction false} DeepestUnits(y: real, x: real, d: real, levels: seq<BookLevel>)
    requires NonNegativeSizes(levels) && 0.0 < y <= Depth(levels)
    requires 0.0 <= d <= LastTake(y, levels) && x == y - d
    ensures WalkCost(y, levels) - WalkCost(x, levels) == Times(d, LastPrice(y, levels))
    decreases |levels|
  {
    hide Times;
    LastTakeIsPositive(y, levels);
    var p, s, tail := levels[0].price, levels[0].size, levels[1..];
    if y <= s {
      WalkCostStep(y, levels, y, 0.0, tail);
      WalkCostStep(x, levels, x, 0.0, tail);
      TimesSplit(y, x, d, p);
    } else {
      LastTakeIsPositive(y - s, tail);
      WalkCostStep(y, levels, s, y - s, tail);
      WalkCostStep(x, levels, s, x - s, tail);
      DeepestUnits(y - s, x - s, d, tail);
    }
  }

  lemma {:induction false} DeepestIsDearest(size: real, levels: seq<BookLevel>, floor: real)
    requires NonNegativeSizes(levels) && 0.0 < size <= Depth(levels)
    requires forall i :: 0 <= i < |levels| ==> floor <= levels[i].price
    ensures floor <= LastPrice(size, levels)
    decreases |levels|
  {
    if levels[0].size < size {
      DeepestIsDearest(size - levels[0].size, levels[1..], floor);
    }
  }

  // In an ascending book no unit costs more than the deepest one.
  lemma {:induction false} NoUnitCostsMore(x: real, y: real, d: real, levels: seq<BookLevel>)
    requires Ascending(levels) && NonNegativeSizes(levels)
    requires 0.0 <= x <= y <= Depth(levels) && 0.0 < y && d == y - x
    ensures WalkCost(y, levels) - WalkCost(x, levels) <= Times(d, LastPrice(y, levels))
    decreases |levels|
  {
    hide Times;
    var p, s, tail := levels[0].price, levels[0].size, levels[1..];
    if y <= s {
      WalkCostStep(y, levels, y, 0.0, tail);
      WalkCostStep(x, levels, x, 0.0, tail);
      TimesSplit(y, x, d, p);
    } else if s <= x {
      WalkCostStep(y, levels, s, y - s, tail);
      WalkCostStep(x, levels, s, x - s, tail);
      NoUnitCostsMore(x - s, y - s, d, tail);
    } else {
      WalkCostStep(y, levels, s, y - s, tail);
      WalkCostStep(x, levels, x, 0.0, tail);
      NoUnitCostsMore(0.0, y - s, y - s, tail);
      NothingToWalk(0.0, tail);
      DeepestIsDearest(y - s, tail, p);
      var last := LastPrice(y - s, tail);
      TimesSplit(s, x, s - x, p);
      TimesMono(p, last, s - x);
      TimesSplit(d, s - x, y - s, last);
    }
  }

  lemma {:induction false} MirrorLast(size: real, levels: seq<BookLevel>)
    ensures LastPrice(size, Mirror(levels)) == -LastPrice(size, levels)
    decreases |levels|
  {
    if levels != [] {
      assert Mirror(levels)[1..] == Mirror(levels[1..]);
      MirrorLast(size - levels[0].size, levels[1..]);
    }
  }

  lemma MirrorSorts(levels: seq<BookLevel>)
    requires Descending(levels) && NonNegativeSizes(levels)
    ensures Ascending(Mirror(levels)) && NonNegativeSizes(Mirror(levels))
  {}

  // In a descending book no unit brings less than the deepest one.
  lemma NoUnitBringsLess(x: real, y: real, d: real, levels: seq<BookLevel>)
    requires Descending(levels) && NonNegativeSizes(levels)
    requires 0.0 <= x <= y <= Depth(levels) && 0.0 < y && d == y - x
    ensures Times(d, LastPrice(y, levels)) <= WalkCost(y, levels) - WalkCost(x, levels)
  {
    hide *;
    MirrorSorts(levels);
    MirrorWalk(x, levels);
    MirrorWalk(y, levels);
    MirrorLast(y, levels);
    NoUnitCostsMore(x, y, d, Mirror(levels));
    TimesNegative(d, LastPrice(y, levels));
  }

  // ---------------------------------------------------------------------------------------------
  // Net profit as a function of the size
  // ---------------------------------------------------------------------------------------------

  // What a dollar walked on the asks costs, and one walked on the bids brings, at the worst prices the
  // limits allow.
  function BuyFactor(a: Attempt): real {
    Times(1.0 + a.gates.slippage, 1.0 + a.buyInst.takerFee)
  }

  function SellFactor(a: Attempt): real {
    Times(1.0 - a.gates.slippage, 1.0 - a.sellInst.takerFee)
  }

  function WalkedProfit(size: real, a: Attempt): real {
    Times(WalkCost(size, a.bids), SellFactor(a)) - Times(WalkCost(size, a.asks), BuyFactor(a))
  }

  function NetProfit(size: real, a: Attempt): real {
    if PriceAtSize(size, a).Some? then PriceAtSize(size, a).value.economics.netProfit else 0.0
  }

  lemma ProfitAlgebra(v: real, w: real, x: real, s1: real, s2: real, b1: real, b2: real, gain: real, cost: real)
    requires gain == v * x && cost == w * x
    ensures Times(Times(Times(v, s1), s2) - Times(Times(w, b1), b2), x)
         == Times(gain, Times(s1, s2)) - Times(cost, Times(b1, b2))
  {
    assert (v * s1 * s2 - w * b1 * b2) * x == v * x * (s1 * s2) - w * x * (b1 * b2);
  }

  lemma NetIsWalked(size: real, a: Attempt)
    requires OrderedBooks(a) && Passes(size, a)
    ensures NetProfit(size, a) == WalkedProfit(size, a)
    ensures 0.0 < size <= Depth(a.asks) && size <= Depth(a.bids)
  {
    hide Times, Vwap, WalkCost, WalkFilled, SellMarginPerUnit, Depth, Calculate;
    PassingIsAffordable(size, a);
    FullFill(size, a.asks);
    FullFill(size, a.bids);
    var c := ContractOf(a);
    CalculatePerUnit(BuyLimit(size, a), SellLimit(size, a), size, c);
    ProfitAlgebra(Vwap(size, a.bids), Vwap(size, a.asks), size, 1.0 - a.gates.slippage, 1.0 - c.sellFee,
      1.0 + a.gates.slippage, 1.0 + c.buyFee, WalkCost(size, a.bids), WalkCost(size, a.asks));
  }

  lemma FactorPositive(v: real, k: real)
    requires 0.0 < v && 0.0 < Times(v, k)
    ensures 0.0 < k
  {
    if k <= 0.0 {
      MulMono(k, 0.0, v);
    }
  }

  // Nothing passes unless slippage and the selling fee leave something.
  lemma ScalesArePositive(size: real, a: Attempt)
    requires OrderedBooks(a) && Passes(size, a)
    ensures 0.0 < 1.0 + a.gates.slippage && 0.0 < 1.0 - a.gates.slippage
    ensures 0.0 <= a.buyInst.takerFee && 0.0 <= a.sellInst.takerFee < 1.0
  {
    PassesPerUnit(size, a);
    PassingIsAffordable(size, a);
    VwapPositive(size, a.asks);
    VwapPositive(size, a.bids);
    UnitProfitImproves(BuyLimit(size, a), BuyLimit(size, a), SellLimit(size, a), SellLimit(size, a), ContractOf(a));
    hide Vwap, Depth, UnitProfit, SellMarginPerUnit, Times;
    FactorPositive(Vwap(size, a.asks), 1.0 + a.gates.slippage);
    FactorPositive(Vwap(size, a.bids), 1.0 - a.gates.slippage);
  }

  lemma FactorsArePositive(size: real, a: Attempt)
    requires OrderedBooks(a) && Passes(size, a)
    ensures 0.0 < BuyFactor(a) && 0.0 < SellFactor(a)
  {
    ScalesArePositive(size, a);
    TimesPositive(1.0 + a.gates.slippage, 1.0 + a.buyInst.takerFee);
    TimesPositive(1.0 - a.gates.slippage, 1.0 - a.sellInst.takerFee);
  }

  // ---------------------------------------------------------------------------------------------
  // When profit grows with the size
  // ---------------------------------------------------------------------------------------------

  // The deepest ask level touched still clears the deepest bid level touched, after slippage and fees.
  predicate DeepestClears(size: real, a: Attempt) {
    Times(LastPrice(size, a.asks), BuyFactor(a)) <= Times(LastPrice(size, a.bids), SellFactor(a))
  }

  lemma ProfitOfUnits(d: real, cost: real, gain: real, ask: real, bid: real, kb: real, ks: real)
    requires cost <= Times(d, ask) && Times(d, bid) <= gain && 0.0 <= kb && 0.0 <= ks
    ensures Times(d, Times(bid, ks) - Times(ask, kb)) <= Times(gain, ks) - Times(cost, kb)
  {
    TimesMono(cost, Times(d, ask), kb);
    TimesMono(Times(d, bid), gain, ks);
    assert d * (bid * ks - ask * kb) == d * bid * ks - d * ask * kb;
  }

  lemma ProfitOfDeepest(d: real, ask: real, bid: real, kb: real, ks: real)
    ensures Times(Times(d, bid), ks) - Times(Times(d, ask), kb) == Times(d, Times(bid, ks) - Times(ask, kb))
  {
    assert d * (bid * ks - ask * kb) == d * bid * ks - d * ask * kb;
  }

  lemma DeepestClearsIsEnough(x: real, y: real, a: Attempt)
    requires OrderedBooks(a) && Passes(y, a) && 0.0 < x <= y && DeepestClears(y, a)
    ensures NetProfit(x, a) <= NetProfit(y, a)
  {
    PassesDownwardClosed(x, y, a);
    NetIsWalked(x, a);
    NetIsWalked(y, a);
    FactorsArePositive(y, a);
    var kb, ks, d := BuyFactor(a), SellFactor(a), y - x;
    hide Times, BuyFactor, SellFactor, LastPrice, Depth, WalkCost, NetProfit, Passes;
    NoUnitCostsMore(x, y, d, a.asks);
    NoUnitBringsLess(x, y, d, a.bids);
    var cost, gain := WalkCost(y, a.asks) - WalkCost(x, a.asks), WalkCost(y, a.bids) - WalkCost(x, a.bids);
    var ask, bid := LastPrice(y, a.asks), LastPrice(y, a.bids);
    ProfitOfUnits(d, cost, gain, ask, bid, kb, ks);
    TimesMono(0.0, Times(bid, ks) - Times(ask, kb), d);
    TimesZero(d);
    TimesSplit(WalkCost(y, a.bids), WalkCost(x, a.bids), gain, ks);
    TimesSplit(WalkCost(y, a.asks), WalkCost(x, a.asks), cost, kb);
  }

  lemma NegativeProduct(d: real, m: real)
    requires 0.0 < d && m < 0.0
    ensures Times(d, m) < 0.0
  {}

  // A slightly smaller size differs by the deepest units only.
  lemma DeepestClearsIsNeeded(y: real, a: Attempt) returns (x: real)
    requires OrderedBooks(a) && Passes(y, a)
    ensures 0.0 < x < y
    ensures NetProfit(x, a) <= NetProfit(y, a) ==> DeepestClears(y, a)
  {
    NetIsWalked(y, a);
    LastTakeIsPositive(y, a.asks);
    LastTakeIsPositive(y, a.bids);
    var d := Min(LastTake(y, a.asks), LastTake(y, a.bids)) / 2.0;
    x := y - d;
    PassesDownwardClosed(x, y, a);
    NetIsWalked(x, a);
    var kb, ks := BuyFactor(a), SellFactor(a);
    hide Times, BuyFactor, SellFactor, LastPrice, LastTake, Depth, WalkCost, NetProfit, Passes;
    DeepestUnits(y, x, d, a.asks);
    DeepestUnits(y, x, d, a.bids);
    var ask, bid := LastPrice(y, a.asks), LastPrice(y, a.bids);
    ProfitOfDeepest(d, ask, bid, kb, ks);
    TimesSplit(WalkCost(y, a.bids), WalkCost(x, a.bids), Times(d, bid), ks);
    TimesSplit(WalkCost(y, a.asks), WalkCost(x, a.asks), Times(d, ask), kb);
    if Times(bid, ks) - Times(ask, kb) < 0.0 {
      NegativeProduct(d, Times(bid, ks) - Times(ask, kb));
    }
  }

  // No smaller size nets more than a passing one exactly when the deepest levels it touches still
  // clear each other.
  lemma ProfitPeaksIff(y: real, a: Attempt)
    requires OrderedBooks(a) && Passes(y, a)
    ensures (forall x :: 0.0 < x <= y ==> NetProfit(x, a) <= NetProfit(y, a)) <==> DeepestClears(y, a)
  {
    hide NetProfit, DeepestClears, Passes, OrderedBooks;
    if DeepestClears(y, a) {
      forall x | 0.0 < x <= y
        ensures NetProfit(x, a) <= NetProfit(y, a)
      {
        DeepestClearsIsEnough(x, y, a);
      }
    } else {
      var x := DeepestClearsIsNeeded(y, a);
    }
  }

  // ---------------------------------------------------------------------------------------------
  // The ladder
  // ---------------------------------------------------------------------------------------------

  function Rung(ask: BookLevel, bid: BookLevel, size: real, kb: real, ks: real): BookLevel {
    BookLevel(Times(bid.price, ks) - Times(ask.price, kb), size)
  }

  // The book with part of its first level gone.
  function Less(levels: seq<BookLevel>, size: real): (less: seq<BookLevel>)
    requires levels != []
    ensures |less| == |levels|
  {
    [BookLevel(levels[0].price, levels[0].size - size)] + levels[1..]
  }

  // Each rung offers as much as both current levels do, at the profit of one unit of each.
  function Ladder(asks: seq<BookLevel>, bids: seq<BookLevel>, kb: real, ks: real): seq<BookLevel>
    decreases |asks| + |bids|
  {
    if asks == [] || bids == [] then []
    else
      var ask, bid := asks[0], bids[0];
      if ask.size <= bid.size then
        [Rung(ask, bid, ask.size, kb, ks)] + Ladder(asks[1..], Less(bids, ask.size), kb, ks)
      else
        [Rung(ask, bid, bid.size, kb, ks)] + Ladder(Less(asks, bid.size), bids[1..], kb, ks)
  }

  lemma PeelPart(x: real, levels: seq<BookLevel>, part: real, take: real)
    requires levels != [] && NonNegativeSizes(levels) && 0.0 <= part <= levels[0].size
    requires 0.0 <= x <= Depth(levels) && take == Min(part, x)
    ensures NonNegativeSizes(Less(levels, part)) && Depth(Less(levels, part)) == Depth(levels) - part
    ensures WalkCost(x, levels) == Times(take, levels[0].price) + WalkCost(x - take, Less(levels, part))
  {
    hide Times;
    var p, s, tail := levels[0].price, levels[0].size, levels[1..];
    var less := Less(levels, part);
    assert less[1..] == tail;
    var whole := Min(s, x);
    WalkCostStep(x, levels, whole, x - whole, tail);
    if x <= part {
      NothingToWalk(0.0, less);
      NothingToWalk(0.0, tail);
    } else {
      WalkCostStep(x - take, less, whole - take, x - whole, tail);
      TimesSplit(whole, take, whole - take, p);
    }
  }

  lemma PeelLevel(x: real, levels: seq<BookLevel>, take: real)
    requires levels != [] && NonNegativeSizes(levels)
    requires 0.0 <= x <= Depth(levels) && take == Min(levels[0].size, x)
    ensures NonNegativeSizes(levels[1..]) && Depth(levels[1..]) == Depth(levels) - levels[0].size
    ensures WalkCost(x, levels) == Times(take, levels[0].price) + WalkCost(x - take, levels[1..])
  {
    WalkCostStep(x, levels, take, x - take, levels[1..]);
  }

  lemma RungProfit(take: real, ask: real, bid: real, kb: real, ks: real, costA: real, costB: real, restA: real, restB: real)
    requires costA == Times(take, ask) + restA && costB == Times(take, bid) + restB
    ensures Times(costB, ks) - Times(costA, kb)
         == Times(take, Times(bid, ks) - Times(ask, kb)) + (Times(restB, ks) - Times(restA, kb))
  {
    TimesSplit(costB, Times(take, bid), restB, ks);
    TimesSplit(costA, Times(take, ask), restA, kb);
    ProfitOfDeepest(take, ask, bid, kb, ks);
    hide Times;
  }

  lemma DepthOfStep(levels: seq<BookLevel>)
    requires levels != []
    ensures Depth(levels) == levels[0].size + Depth(levels[1..])
  {}

  // Walking the ladder earns what walking both books does, after slippage and fees.
  lemma {:induction false} LadderEarnsProfit(x: real, asks: seq<BookLevel>, bids: seq<BookLevel>, kb: real, ks: real)
    requires NonNegativeSizes(asks) && NonNegativeSizes(bids)
    requires 0.0 <= x <= Depth(asks) && x <= Depth(bids)
    ensures NonNegativeSizes(Ladder(asks, bids, kb, ks)) && x <= Depth(Ladder(asks, bids, kb, ks))
    ensures WalkCost(x, Ladder(asks, bids, kb, ks)) == Times(WalkCost(x, bids), ks) - Times(WalkCost(x, asks), kb)
    decreases |asks| + |bids|
  {
    hide Times, WalkCost;
    var ladder := Ladder(asks, bids, kb, ks);
    if asks == [] || bids == [] {
      NothingToWalk(x, asks);
      NothingToWalk(x, bids);
      NothingToWalk(x, ladder);
      TimesZero(ks);
      TimesZero(kb);
    } else {
      var ask, bid := asks[0], bids[0];
      var size := Min(ask.size, bid.size);
      var take := Min(size, x);
      var asks', bids' := if ask.size <= bid.size then asks[1..] else Less(asks, bid.size),
                          if ask.size <= bid.size then Less(bids, ask.size) else bids[1..];
      if ask.size <= bid.size {
        PeelLevel(x, asks, take);
        PeelPart(x, bids, size, take);
      } else {
        PeelPart(x, asks, size, take);
        PeelLevel(x, bids, take);
      }
      DepthNonNegative(asks');
      DepthNonNegative(bids');
      LadderEarnsProfit(x - take, asks', bids', kb, ks);
      var rest := Ladder(asks', bids', kb, ks);
      assert ladder == [Rung(ask, bid, size, kb, ks)] + rest && ladder[1..] == rest;
      hide Ladder, Less;
      DepthOfStep(ladder);
      PeelLevel(x, ladder, take);
      RungProfit(take, ask.price, bid.price, kb, ks, WalkCost(x, asks), WalkCost(x, bids),
        WalkCost(x - take, asks'), WalkCost(x - take, bids'));
    }
  }

  // ---------------------------------------------------------------------------------------------
  // The largest amount that reaches a goal
  // ---------------------------------------------------------------------------------------------

  function Reach(goal: real, levels: seq<BookLevel>, bound: real): Option<real>
    decreases |levels|
  {
    if levels == [] || bound <= 0.0 then if goal <= 0.0 then Some(0.0) else None
    else
      var take := Min(levels[0].size, bound);
      var further := Reach(goal - Times(take, levels[0].price), levels[1..], bound - take);
      if further.Some? then Some(take + further.value)
      else if goal <= 0.0 && levels[0].price < 0.0 then Some(goal / levels[0].price)
      else None
  }

  lemma NegativeFactor(take: real, price: real)
    requires 0.0 <= take && Times(take, price) < 0.0
    ensures price < 0.0
  {
    if 0.0 <= price {
      TimesMono(0.0, price, take);
    }
  }

  lemma {:induction false} ReachMissesPositive(goal: real, levels: seq<BookLevel>, bound: real)
    requires NonNegativeSizes(levels) && Reach(goal, levels, bound).None?
    ensures 0.0 < goal
    decreases |levels|
  {
    if levels != [] && 0.0 < bound && goal <= 0.0 {
      var take := Min(levels[0].size, bound);
      ReachMissesPositive(goal - Times(take, levels[0].price), levels[1..], bound - take);
      NegativeFactor(take, levels[0].price);
      hide Times;
    }
  }

  lemma GoalWithinLevel(goal: real, price: real, take: real)
    requires price < 0.0 && goal <= 0.0 && Times(take, price) < goal
    ensures 0.0 <= goal / price < take && Times(goal / price, price) == goal
  {
    var h := goal / price;
    DivMul(goal, price);
    if h < 0.0 {
      MulPositive(-h, -price);
    }
    if take <= h {
      MulMono(take, h, -price);
    }
  }

  // It reaches the goal.
  lemma {:induction false} ReachReaches(goal: real, levels: seq<BookLevel>, bound: real)
    requires NonNegativeSizes(levels) && 0.0 <= bound <= Depth(levels) && Reach(goal, levels, bound).Some?
    ensures 0.0 <= Reach(goal, levels, bound).value <= bound
    ensures goal <= WalkCost(Reach(goal, levels, bound).value, levels)
    decreases |levels|
  {
    hide Times, WalkCost;
    NothingToWalk(0.0, levels);
    if levels != [] && 0.0 < bound {
      var p, s, tail := levels[0].price, levels[0].size, levels[1..];
      var take := Min(s, bound);
      var here := Times(take, p);
      WalkCostStep(bound, levels, take, bound - take, tail);
      var further := Reach(goal - here, tail, bound - take);
      if further.Some? {
        ReachReaches(goal - here, tail, bound - take);
        WalkCostStep(take + further.value, levels, take, further.value, tail);
      } else {
        ReachMissesPositive(goal - here, tail, bound - take);
        if goal <= 0.0 && p < 0.0 {
          GoalWithinLevel(goal, p, take);
          var h := goal / p;
          WalkCostStep(h, levels, h, 0.0, tail);
          NothingToWalk(0.0, tail);
        }
      }
    }
  }

  lemma NegativeOrZero(x: real, p: real)
    requires 0.0 <= x && p < 0.0
    ensures Times(x, p) <= 0.0
  {
    MulMono(0.0, x, -p);
  }

  lemma BeyondGoal(goal: real, p: real, x: real, take: real)
    requires 0.0 <= x < take && goal <= Times(x, p) && Times(take, p) < goal
    ensures p < 0.0 && goal <= 0.0 && x <= goal / p
  {
    if 0.0 <= p {
      MulMono(x, take, p);
    }
    NegativeOrZero(x, p);
    DivMul(goal, p);
    if goal / p < x {
      MulPositive(x - goal / p, -p);
    }
  }

  // And nothing larger does.
  lemma {:induction false} ReachIsLargest(goal: real, levels: seq<BookLevel>, bound: real, x: real)
    requires NonNegativeSizes(levels) && 0.0 <= x <= bound <= Depth(levels) && goal <= WalkCost(x, levels)
    ensures Reach(goal, levels, bound).Some? && x <= Reach(goal, levels, bound).value
    decreases |levels|
  {
    hide Times, WalkCost;
    if levels == [] || bound <= 0.0 {
      NothingToWalk(x, levels);
    } else {
      var p, s, tail := levels[0].price, levels[0].size, levels[1..];
      var take := Min(s, bound);
      var here := Times(take, p);
      WalkCostStep(bound, levels, take, bound - take, tail);
      var further := Reach(goal - here, tail, bound - take);
      if take <= x {
        WalkCostStep(x, levels, take, x - take, tail);
        ReachIsLargest(goal - here, tail, bound - take, x - take);
      } else {
        WalkCostStep(x, levels, x, 0.0, tail);
        NothingToWalk(0.0, tail);
        if further.Some? {
          ReachReaches(goal - here, tail, bound - take);
        } else {
          ReachMissesPositive(goal - here, tail, bound - take);
          BeyondGoal(goal, p, x, take);
        }
      }
    }
  }

  // ---------------------------------------------------------------------------------------------
  // What a rejection hides
  // ---------------------------------------------------------------------------------------------

  // The gates and all four floors.
  predicate Accepted(size: real, a: Attempt, sellAvail: Option<real>) {
    && Passes(size, a)
    && FinalChecks(PriceAtSize(size, a).value, a.gates, a.buyInst, a.sellInst, sellAvail).Ok?
  }

  function Margin(a: Attempt): real {
    if 0.0 < a.spot then SellMarginPerUnit(a.spot, a.sellInst.strike, a.sellInst.optionType) else 0.0
  }

  // The largest size up to y that the funds margin; y itself when they are not known.
  function MarginedSize(y: real, a: Attempt, sellAvail: Option<real>): real {
    if sellAvail.Some? && 0.0 < Margin(a) then Min(y, sellAvail.value / Margin(a)) else y
  }

  // The largest size up to y that the funds margin and whose profit reaches the floor, read off the
  // books before any size is tried.
  function LargestWorthwhile(y: real, a: Attempt, sellAvail: Option<real>): Option<real> {
    Reach(a.gates.minNetProfit, Ladder(a.asks, a.bids, BuyFactor(a), SellFactor(a)), MarginedSize(y, a, sellAvail))
  }

  lemma FloorsOf(x: real, a: Attempt, sellAvail: Option<real>)
    requires OrderedBooks(a) && Passes(x, a)
    ensures 0.0 < x && 0.0 < Margin(a)
    ensures Accepted(x, a, sellAvail) <==>
      && a.gates.minBuyPremium <= PriceAtSize(x, a).value.economics.buyPremium
      && a.gates.minNetProfit <= NetProfit(x, a)
      && (0.0 < Max(a.buyInst.minTradeAmount, a.sellInst.minTradeAmount) ==>
            Max(a.buyInst.minTradeAmount, a.sellInst.minTradeAmount) <= x)
      && (sellAvail.Some? ==> Times(Margin(a), x) <= sellAvail.value)
  {
    hide PriceAtSize, Times, SellMarginPerUnit, OrderedBooks;
    PassesPerUnit(x, a);
    FiguresGrowWithSize(x, x, a);
    hide BuyLimit, SellLimit, UnitProfit;
  }

  lemma FundsCap(x: real, margin: real, funds: real)
    requires 0.0 < margin
    ensures Times(margin, x) <= funds <==> x <= funds / margin
  {
    DivMul(funds, margin);
    if Times(margin, x) <= funds {
      MulCancel(x, funds / margin, margin);
    } else if x <= funds / margin {
      MulMono(x, funds / margin, margin);
    }
  }

  lemma ProfitOnLadder(x: real, a: Attempt)
    requires OrderedBooks(a) && Passes(x, a)
    ensures var ladder := Ladder(a.asks, a.bids, BuyFactor(a), SellFactor(a));
      && NonNegativeSizes(ladder) && 0.0 < x <= Depth(ladder)
      && WalkCost(x, ladder) == NetProfit(x, a)
  {
    NetIsWalked(x, a);
    LadderEarnsProfit(x, a.asks, a.bids, BuyFactor(a), SellFactor(a));
    hide NetProfit, WalkCost, Depth, Ladder, Passes, Times;
  }

  // An accepted size makes the largest worthwhile one accepted too.
  lemma AcceptedReachesWorthwhile(x: real, y: real, a: Attempt, sellAvail: Option<real>)
    requires OrderedBooks(a) && Passes(y, a) && 0.0 < x <= y && Accepted(x, a, sellAvail)
    ensures var h := LargestWorthwhile(y, a, sellAvail);
      h.Some? && x <= h.value <= y && Accepted(h.value, a, sellAvail)
  {
    hide Accepted, PriceAtSize, Passes, NetProfit, OrderedBooks, Ladder, Reach, WalkCost, Depth, Times, BuyFactor, SellFactor, Margin;
    assert Passes(x, a) by {
      PassesDownwardClosed(x, y, a);
    }
    FloorsOf(x, a, sellAvail);
    FloorsOf(y, a, sellAvail);
    if sellAvail.Some? {
      FundsCap(x, Margin(a), sellAvail.value);
    }
    ProfitOnLadder(y, a);
    ProfitOnLadder(x, a);
    var bound := MarginedSize(y, a, sellAvail);
    var ladder := Ladder(a.asks, a.bids, BuyFactor(a), SellFactor(a));
    ReachIsLargest(a.gates.minNetProfit, ladder, bound, x);
    ReachReaches(a.gates.minNetProfit, ladder, bound);
    var h := Reach(a.gates.minNetProfit, ladder, bound).value;
    FiguresGrowWithSize(h, y, a);
    FiguresGrowWithSize(x, h, a);
    ProfitOnLadder(h, a);
    FloorsOf(h, a, sellAvail);
    if sellAvail.Some? {
      FundsCap(h, Margin(a), sellAvail.value);
    }
  }

  // Some size up to a passing one would be accepted exactly when the largest worthwhile one is.  So a
  // rejection of y, whatever floor it is for, hides an acceptable smaller size exactly then.
  lemma AcceptedSizeIff(y: real, a: Attempt, sellAvail: Option<real>)
    requires OrderedBooks(a) && Passes(y, a)
    ensures (exists x :: 0.0 < x <= y && Accepted(x, a, sellAvail)) <==>
      var h := LargestWorthwhile(y, a, sellAvail);
      h.Some? && 0.0 < h.value <= y && Accepted(h.value, a, sellAvail)
  {
    hide Accepted, OrderedBooks, Passes, LargestWorthwhile;
    if x :| 0.0 < x <= y && Accepted(x, a, sellAvail) {
      AcceptedReachesWorthwhile(x, y, a, sellAvail);
    }
  }

  // Where the deepest levels still clear each other, a size that misses the profit floor hides nothing.
  lemma ProfitFloorRejectsJustly(x: real, y: real, a: Attempt, sellAvail: Option<real>)
    requires OrderedBooks(a) && Passes(y, a) && 0.0 < x <= y && DeepestClears(y, a)
    requires NetProfit(y, a) < a.gates.minNetProfit
    ensures !Accepted(x, a, sellAvail)
  {
    DeepestClearsIsEnough(x, y, a);
    PassesDownwardClosed(x, y, a);
    FloorsOf(x, a, sellAvail);
    hide Accepted, NetProfit, Passes, OrderedBooks, DeepestClears;
  }

  lemma QuotientOfFunds(funds: real, margin: real)
    requires 0.0 < margin
    ensures 0.0 < funds / margin <==> 0.0 < funds
  {
    DivMul(funds, margin);
    ProductSign(funds / margin, margin);
  }

  lemma NetIsPositive(x: real, a: Attempt)
    requires Passes(x, a)
    ensures 0.0 < NetProfit(x, a)
  {
    hide PriceAtSize;
  }

  lemma AcceptedUpToFunds(x: real, s: real, a: Attempt, funds: real)
    requires OrderedBooks(a) && Passes(s, a) && 0.0 < x <= s && Accepted(x, a, Some(funds))
    requires 0.0 < Margin(a) && s == funds / Margin(a)
    requires a.gates.minNetProfit <= 0.0 || DeepestClears(s, a)
    ensures Accepted(s, a, Some(funds))
  {
    FiguresGrowWithSize(x, s, a);
    hide Accepted, PriceAtSize, Passes, OrderedBooks, Times, SellMarginPerUnit, DeepestClears, NetProfit;
    FloorsOf(x, a, Some(funds));
    FloorsOf(s, a, Some(funds));
    FundsCap(s, Margin(a), funds);
    NetIsPositive(s, a);
    if DeepestClears(s, a) {
      DeepestClearsIsEnough(x, s, a);
    }
  }

  // A rejection for lack of margin hides nothing when there are no funds.  Otherwise, if profit still
  // grows up to the size the funds margin, or any profit is good enough, it hides an acceptable size
  // exactly when that one is acceptable.
  lemma FundsRejectionIff(y: real, a: Attempt, funds: real)
    requires OrderedBooks(a) && Passes(y, a)
    requires FinalChecks(PriceAtSize(y, a).value, a.gates, a.buyInst, a.sellInst, Some(funds)) == Err(InsufficientSellFunds)
    ensures 0.0 < Margin(a)
    ensures funds <= 0.0 ==> forall x :: 0.0 < x <= y ==> !Accepted(x, a, Some(funds))
    ensures var s := funds / Margin(a);
      && (funds > 0.0 ==> 0.0 < s < y && Passes(s, a) && PriceAtSize(s, a).value.economics.shortMargin <= funds)
      && (funds > 0.0 && (a.gates.minNetProfit <= 0.0 || DeepestClears(s, a)) ==>
            ((exists x :: 0.0 < x <= y && Accepted(x, a, Some(funds))) <==> Accepted(s, a, Some(funds))))
  {
    PassesPerUnit(y, a);
    FiguresGrowWithSize(y, y, a);
    hide Accepted, PriceAtSize, NetProfit, OrderedBooks, Times, SellMarginPerUnit, DeepestClears, BuyLimit, SellLimit, UnitProfit;
    FloorsOf(y, a, Some(funds));
    var s := funds / Margin(a);
    FundsCap(y, Margin(a), funds);
    forall x | 0.0 < x <= y && Accepted(x, a, Some(funds))
      ensures 0.0 < x <= s
    {
      PassesDownwardClosed(x, y, a);
      FloorsOf(x, a, Some(funds));
      FundsCap(x, Margin(a), funds);
    }
    QuotientOfFunds(funds, Margin(a));
    if funds > 0.0 {
      FiguresGrowWithSize(s, y, a);
      FundsCap(s, Margin(a), funds);
      if a.gates.minNetProfit <= 0.0 || DeepestClears(s, a) {
        forall x | 0.0 < x <= y && Accepted(x, a, Some(funds))
          ensures Accepted(s, a, Some(funds))
        {
          AcceptedUpToFunds(x, s, a, funds);
        }
      }
    }
  }

  lemma LossOfUnits(d: real, cost: real, gain: real, ask: real, bid: real, kb: real, ks: real)
    requires Times(d, ask) <= cost && gain <= Times(d, bid) && 0.0 <= kb && 0.0 <= ks && 0.0 <= d
    requires Times(bid, ks) <= Times(ask, kb)
    ensures Times(gain, ks) <= Times(cost, kb)
  {
    TimesMono(Times(d, ask), cost, kb);
    TimesMono(gain, Times(d, bid), ks);
    ProfitOfDeepest(d, ask, bid, kb, ks);
    TimesMono(Times(bid, ks) - Times(ask, kb), 0.0, d);
    TimesZero(d);
    hide Times;
  }

  lemma {:induction false} LaterUnitsCostMore(z: real, y: real, d: real, levels: seq<BookLevel>)
    requires Ascending(levels) && NonNegativeSizes(levels)
    requires 0.0 < z <= y <= Depth(levels) && d == y - z
    ensures Times(d, LastPrice(z, levels)) <= WalkCost(y, levels) - WalkCost(z, levels)
    decreases |levels|
  {
    hide Times;
    var p, s, tail := levels[0].price, levels[0].size, levels[1..];
    if z <= s {
      MarginalCostAtLeast(z, y, d, levels, p);
    } else {
      WalkCostStep(y, levels, s, y - s, tail);
      WalkCostStep(z, levels, s, z - s, tail);
      LaterUnitsCostMore(z - s, y - s, d, tail);
    }
  }

  lemma LaterUnitsBringLess(z: real, y: real, d: real, levels: seq<BookLevel>)
    requires Descending(levels) && NonNegativeSizes(levels)
    requires 0.0 < z <= y <= Depth(levels) && d == y - z
    ensures WalkCost(y, levels) - WalkCost(z, levels) <= Times(d, LastPrice(z, levels))
  {
    hide *;
    MirrorSorts(levels);
    MirrorWalk(z, levels);
    MirrorWalk(y, levels);
    MirrorLast(z, levels);
    LaterUnitsCostMore(z, y, d, Mirror(levels));
    TimesNegative(d, LastPrice(z, levels));
  }

  // Sizes whose profit reaches a floor leave no gap: between two of them every size reaches it.
  lemma WorthwhileSizesAreAnInterval(x: real, z: real, y: real, a: Attempt, floor: real)
    requires OrderedBooks(a) && Passes(y, a) && 0.0 < x <= z <= y
    requires floor <= NetProfit(x, a) && floor <= NetProfit(y, a)
    ensures floor <= NetProfit(z, a)
  {
    PassesDownwardClosed(x, y, a);
    PassesDownwardClosed(z, y, a);
    NetIsWalked(x, a);
    NetIsWalked(y, a);
    NetIsWalked(z, a);
    FactorsArePositive(y, a);
    var kb, ks := BuyFactor(a), SellFactor(a);
    var ask, bid := LastPrice(z, a.asks), LastPrice(z, a.bids);
    hide Times, BuyFactor, SellFactor, LastPrice, Depth, WalkCost, NetProfit, Passes;
    if DeepestClears(z, a) {
      DeepestClearsIsEnough(x, z, a);
    } else {
      var d := y - z;
      LaterUnitsCostMore(z, y, d, a.asks);
      LaterUnitsBringLess(z, y, d, a.bids);
      var cost, gain := WalkCost(y, a.asks) - WalkCost(z, a.asks), WalkCost(y, a.bids) - WalkCost(z, a.bids);
      LossOfUnits(d, cost, gain, ask, bid, kb, ks);
      TimesSplit(WalkCost(y, a.bids), WalkCost(z, a.bids), gain, ks);
      TimesSplit(WalkCost(y, a.asks), WalkCost(z, a.asks), cost, kb);
    }
  }
}

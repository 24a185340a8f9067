// Order-book walking (backend/src/option_arb/exchanges/base.py).
//
// Prices and sizes are exact reals.  WalkCost/WalkFilled say what a greedy walk consumes; the
// theorems below say why a greedy walk is the right one: it is the cheapest way to take a given
// amount out of an ascending book, and its average price never improves as the amount grows.
module OrderBook {
  import opened RealArithmetic
  import opened Wrappers

  datatype BookLevel = BookLevel(price: real, size: real)

  // Bids are listed best (highest) first, asks best (lowest) first.
  datatype Book = Book(bids: seq<BookLevel>, asks: seq<BookLevel>, underlyingPrice: Option<real>)

  // ---------------------------------------------------------------------------------------------
  // What a walk consumes
  // ---------------------------------------------------------------------------------------------

  function WalkCost(size: real, levels: seq<BookLevel>): real
    decreases |levels|
  {
    if levels == [] || size <= 0.0 then 0.0
    else
      var take := Min(levels[0].size, size);
      Times(take, levels[0].price) + WalkCost(size - take, levels[1..])
  }

  function WalkFilled(size: real, levels: seq<BookLevel>): real
    decreases |levels|
  {
    if levels == [] || size <= 0.0 then 0.0
    else
      var take := Min(levels[0].size, size);
      take + WalkFilled(size - take, levels[1..])
  }

  // Volume-weighted price of the walk; 0 when nothing is filled.
  function Vwap(size: real, levels: seq<BookLevel>): real {
    var filled := WalkFilled(size, levels);
    if filled == 0.0 then 0.0 else WalkCost(size, levels) / filled
  }

  lemma WalkOneLevel(size: real, levels: seq<BookLevel>, i: nat, take: real)
    requires i < |levels| && size > 0.0 && take == Min(levels[i].size, size)
    ensures WalkCost(size, levels[i..]) == Times(take, levels[i].price) + WalkCost(size - take, levels[i + 1..])
    ensures WalkFilled(size, levels[i..]) == take + WalkFilled(size - take, levels[i + 1..])
  {
    assert levels[i..][1..] == levels[i + 1..];
  }

  lemma NothingToWalk(size: real, levels: seq<BookLevel>)
    requires levels == [] || size <= 0.0
    ensures WalkCost(size, levels) == 0.0 && WalkFilled(size, levels) == 0.0
  {}

  method WalkBook(size: real, levels: seq<BookLevel>) returns (vwap: real, filled: real)
    ensures vwap == Vwap(size, levels)
    ensures filled == WalkFilled(size, levels)
  {
    if |levels| == 0 || size <= 0.0 {
      return 0.0, 0.0;
    }
    hide WalkCost, WalkFilled, Min, Times;
    var remaining := size;
    var totalCost := 0.0;
    var totalFilled := 0.0;
    var i := 0;
    while i < |levels|
      invariant 0 <= i <= |levels|
      invariant totalCost + WalkCost(remaining, levels[i..]) == WalkCost(size, levels)
      invariant totalFilled + WalkFilled(remaining, levels[i..]) == WalkFilled(size, levels)
    {
      if remaining <= 0.0 {
        break;
      }
      var take := Min(levels[i].size, remaining);
      WalkOneLevel(remaining, levels, i, take);
      totalCost := totalCost + Times(take, levels[i].price);
      totalFilled := totalFilled + take;
      remaining := remaining - take;
      i := i + 1;
    }
    NothingToWalk(remaining, levels[i..]);
    if totalFilled == 0.0 {
      return 0.0, 0.0;
    }
    return totalCost / totalFilled, totalFilled;
  }

  // ---------------------------------------------------------------------------------------------
  // Well-formed books
  // ---------------------------------------------------------------------------------------------

  predicate Ascending(levels: seq<BookLevel>) {
    forall i, j :: 0 <= i < j < |levels| ==> levels[i].price <= levels[j].price
  }

  predicate Descending(levels: seq<BookLevel>) {
    forall i, j :: 0 <= i < j < |levels| ==> levels[j].price <= levels[i].price
  }

  predicate NonNegativeSizes(levels: seq<BookLevel>) {
    forall i :: 0 <= i < |levels| ==> 0.0 <= levels[i].size
  }

  predicate PositivePrices(levels: seq<BookLevel>) {
    forall i :: 0 <= i < |levels| ==> 0.0 < levels[i].price
  }

  function Depth(levels: seq<BookLevel>): real {
    if levels == [] then 0.0 else levels[0].size + Depth(levels[1..])
  }

  lemma {:induction false} DepthNonNegative(levels: seq<BookLevel>)
    requires NonNegativeSizes(levels)
    ensures 0.0 <= Depth(levels)
  {
    if levels != [] {
      DepthNonNegative(levels[1..]);
    }
  }

  // A walk fills the request or the whole book, whichever is smaller.
  lemma {:induction false} WalkFillsMinOfSizeAndDepth(size: real, levels: seq<BookLevel>)
    requires NonNegativeSizes(levels)
    ensures WalkFilled(size, levels) == if size <= 0.0 then 0.0 else Min(size, Depth(levels))
    decreases |levels|
  {
    if levels != [] && 0.0 < size {
      var take := Min(levels[0].size, size);
      WalkFillsMinOfSizeAndDepth(size - take, levels[1..]);
      DepthNonNegative(levels[1..]);
    }
  }

  // ---------------------------------------------------------------------------------------------
  // Greedy optimality
  // ---------------------------------------------------------------------------------------------

  // An allocation takes some amount, within what is offered, from every level.
  predicate Feasible(alloc: seq<real>, levels: seq<BookLevel>) {
    && |alloc| == |levels|
    && forall i :: 0 <= i < |alloc| ==> 0.0 <= alloc[i] <= levels[i].size
  }

  function Total(alloc: seq<real>): real {
    if alloc == [] then 0.0 else alloc[0] + Total(alloc[1..])
  }

  function Cost(alloc: seq<real>, levels: seq<BookLevel>): real
    requires |alloc| == |levels|
  {
    if alloc == [] then 0.0 else Times(alloc[0], levels[0].price) + Cost(alloc[1..], levels[1..])
  }

  // What the walk itself takes from each level.
  function WalkAllocation(size: real, levels: seq<BookLevel>): (alloc: seq<real>)
    ensures |alloc| == |levels|
    decreases |levels|
  {
    if levels == [] then []
    else
      var take := if size <= 0.0 then 0.0 else Min(levels[0].size, size);
      [take] + WalkAllocation(size - take, levels[1..])
  }

  lemma WalkAllocationStep(size: real, levels: seq<BookLevel>, take: real)
    requires levels != []
    requires take == if size <= 0.0 then 0.0 else Min(levels[0].size, size)
    ensures var alloc, rest := WalkAllocation(size, levels), WalkAllocation(size - take, levels[1..]);
      && alloc == [take] + rest && alloc[1..] == rest
      && Total(alloc) == take + Total(rest)
      && Cost(alloc, levels) == Times(take, levels[0].price) + Cost(rest, levels[1..])
  {
    assert WalkAllocation(size, levels)[1..] == WalkAllocation(size - take, levels[1..]);
  }

  lemma FeasibleStep(first: real, rest: seq<real>, levels: seq<BookLevel>)
    requires levels != [] && 0.0 <= first <= levels[0].size && Feasible(rest, levels[1..])
    ensures Feasible([first] + rest, levels)
  {}

  // The walk is itself an allocation, of what it fills at what it costs.
  lemma {:induction false} WalkIsFeasible(size: real, levels: seq<BookLevel>)
    requires NonNegativeSizes(levels)
    ensures Feasible(WalkAllocation(size, levels), levels)
    ensures Total(WalkAllocation(size, levels)) == WalkFilled(size, levels)
    ensures Cost(WalkAllocation(size, levels), levels) == WalkCost(size, levels)
    decreases |levels|
  {
    hide Times;
    if levels == [] {
      NothingToWalk(size, levels);
    } else {
      var take := if size <= 0.0 then 0.0 else Min(levels[0].size, size);
      WalkAllocationStep(size, levels, take);
      WalkIsFeasible(size - take, levels[1..]);
      assert 0.0 <= take <= levels[0].size;
      hide WalkCost, WalkFilled, WalkAllocation, Cost, Total, Feasible, Min;
      FeasibleStep(take, WalkAllocation(size - take, levels[1..]), levels);
      if size <= 0.0 {
        NothingToWalk(size, levels);
        NothingToWalk(size, levels[1..]);
        TimesZero(levels[0].price);
      } else {
        assert levels[0..] == levels;
        WalkOneLevel(size, levels, 0, take);
      }
    }
  }

  // One level of the walk, spelled out for amounts that may be zero.
  lemma WalkCostStep(size: real, levels: seq<BookLevel>, take: real, rest: real, tail: seq<BookLevel>)
    requires levels != [] && NonNegativeSizes(levels) && 0.0 <= size <= Depth(levels)
    requires take == Min(levels[0].size, size) && rest == size - take && tail == levels[1..]
    ensures WalkCost(size, levels) == Times(take, levels[0].price) + WalkCost(rest, tail)
    ensures 0.0 <= take && 0.0 <= rest <= Depth(tail) && NonNegativeSizes(tail)
  {
    hide Times;
    TimesZero(levels[0].price);
    NothingToWalk(0.0, tail);
    DepthNonNegative(tail);
  }

  // Every further unit costs at least `floor` when every level does; d units lie between x and y.
  lemma {:induction false} MarginalCostAtLeast(x: real, y: real, d: real, levels: seq<BookLevel>, floor: real)
    requires NonNegativeSizes(levels)
    requires forall i :: 0 <= i < |levels| ==> floor <= levels[i].price
    requires 0.0 <= x <= y <= Depth(levels) && y == x + d
    ensures Times(d, floor) <= WalkCost(y, levels) - WalkCost(x, levels)
    decreases |levels|
  {
    hide Times;
    if levels == [] {
      NothingToWalk(x, levels);
      NothingToWalk(y, levels);
      TimesZero(floor);
    } else {
      var p, tail := levels[0].price, levels[1..];
      var takeX, takeY := Min(levels[0].size, x), Min(levels[0].size, y);
      WalkCostStep(x, levels, takeX, x - takeX, tail);
      WalkCostStep(y, levels, takeY, y - takeY, tail);
      var more := takeY - takeX;
      MarginalCostAtLeast(x - takeX, y - takeY, d - more, tail, floor);
      TimesSplit(takeY, takeX, more, p);
      TimesSplit(d, more, d - more, floor);
      TimesMono(floor, p, more);
    }
  }

  lemma {:induction false} TotalWithinDepth(alloc: seq<real>, levels: seq<BookLevel>)
    requires Feasible(alloc, levels)
    ensures 0.0 <= Total(alloc) <= Depth(levels)
  {
    if alloc != [] {
      TotalWithinDepth(alloc[1..], levels[1..]);
    }
  }

  // Taking less than possible from the cheapest level and walking the rest costs at least as much.
  lemma CheapestWithFirst(first: real, rest: real, levels: seq<BookLevel>)
    requires levels != [] && Ascending(levels) && NonNegativeSizes(levels)
    requires 0.0 <= first <= levels[0].size && 0.0 <= rest <= Depth(levels[1..])
    ensures WalkCost(first + rest, levels) <= Times(first, levels[0].price) + WalkCost(rest, levels[1..])
  {
    hide Times;
    var total := first + rest;
    var take := Min(levels[0].size, total);
    var more, p := take - first, levels[0].price;
    WalkCostStep(total, levels, take, total - take, levels[1..]);
    MarginalCostAtLeast(total - take, rest, more, levels[1..], p);
    TimesSplit(take, first, more, p);
  }

  // No allocation buys the same amount from an ascending book for less than the walk does.
  lemma {:induction false} WalkIsCheapest(alloc: seq<real>, levels: seq<BookLevel>)
    requires Ascending(levels)
    requires Feasible(alloc, levels)
    ensures WalkCost(Total(alloc), levels) <= Cost(alloc, levels)
  {
    hide Times;
    if alloc != [] {
      WalkIsCheapest(alloc[1..], levels[1..]);
      TotalWithinDepth(alloc, levels);
      TotalWithinDepth(alloc[1..], levels[1..]);
      CheapestWithFirst(alloc[0], Total(alloc[1..]), levels);
    }
  }

  // ---------------------------------------------------------------------------------------------
  // Average price
  // ---------------------------------------------------------------------------------------------

  // A slope that separates the cost curve between x and d units later: no earlier unit costs more,
  // no later one costs less.
  predicate Separates(slope: real, x: real, d: real, levels: seq<BookLevel>) {
    && WalkCost(x, levels) <= Times(x, slope)
    && Times(d, slope) <= WalkCost(x + d, levels) - WalkCost(x, levels)
  }

  lemma {:induction false} SupportingSlope(x: real, d: real, levels: seq<BookLevel>) returns (slope: real)
    requires Ascending(levels) && NonNegativeSizes(levels)
    requires 0.0 < x && 0.0 <= d && x + d <= Depth(levels)
    ensures levels != [] && levels[0].price <= slope
    ensures Separates(slope, x, d, levels)
    decreases |levels|
  {
    hide Times;
    var p, s, tail := levels[0].price, levels[0].size, levels[1..];
    if x <= s {
      slope := p;
      WalkCostStep(x, levels, x, 0.0, tail);
      NothingToWalk(0.0, tail);
      MarginalCostAtLeast(x, x + d, d, levels, p);
    } else {
      slope := SupportingSlope(x - s, d, tail);
      WalkCostStep(x, levels, s, x - s, tail);
      WalkCostStep(x + d, levels, s, x + d - s, tail);
      assert x - s + d == x + d - s;
      assert p <= tail[0].price;
      TimesMono(p, slope, s);
      TimesSplit(x, s, x - s, slope);
    }
  }

  // An average below a slope that the remaining cost exceeds can only rise.
  lemma AverageStep(x: real, y: real, d: real, slope: real, cx: real, cy: real)
    requires 0.0 < x <= y == x + d
    requires cx <= x * slope && d * slope <= cy - cx
    ensures cx / x <= cy / y
  {
    var a, b := cx / x, cy / y;
    DivMul(cx, x);
    DivMul(cy, y);
    MulCancel(a, slope, x);
    MulMono(a, slope, d);
    SplitProduct(a, y, x, d);
    MulCancel(a, b, y);
  }

  lemma AverageRises(x: real, y: real, d: real, slope: real, cx: real, cy: real)
    requires 0.0 < x <= y == x + d
    requires cx <= Times(x, slope) && Times(d, slope) <= cy - cx
    ensures cx / x <= cy / y
  {
    AverageStep(x, y, d, slope, cx, cy);
  }

  lemma FullFill(size: real, levels: seq<BookLevel>)
    requires NonNegativeSizes(levels)
    requires 0.0 < size <= Depth(levels)
    ensures WalkFilled(size, levels) == size
    ensures Vwap(size, levels) * size == WalkCost(size, levels)
  {
    WalkFillsMinOfSizeAndDepth(size, levels);
    DivMul(WalkCost(size, levels), size);
  }

  lemma AveragesAscend(x: real, y: real, levels: seq<BookLevel>)
    requires Ascending(levels) && NonNegativeSizes(levels)
    requires 0.0 < x <= y <= Depth(levels)
    ensures WalkCost(x, levels) / x <= WalkCost(y, levels) / y
  {
    hide WalkCost, Depth, Times;
    var d := y - x;
    var slope := SupportingSlope(x, d, levels);
    assert x + d == y;
    var cx, cy := WalkCost(x, levels), WalkCost(y, levels);
    AverageRises(x, y, d, slope, cx, cy);
  }

  // One level of a walk that takes all of it, whatever is left to ask for.
  lemma WalkWholeLevel(size: real, levels: seq<BookLevel>)
    requires levels != [] && NonNegativeSizes(levels) && levels[0].size <= size
    ensures WalkCost(size, levels) == Times(levels[0].size, levels[0].price) + WalkCost(size - levels[0].size, levels[1..])
    ensures WalkFilled(size, levels) == levels[0].size + WalkFilled(size - levels[0].size, levels[1..])
  {
    if size <= 0.0 {
      NothingToWalk(size - levels[0].size, levels[1..]);
      TimesZero(levels[0].price);
    }
  }

  // A walk beyond the depth of the book stops there.
  lemma {:induction false} WalkStopsAtDepth(size: real, levels: seq<BookLevel>)
    requires NonNegativeSizes(levels) && Depth(levels) <= size
    ensures WalkCost(size, levels) == WalkCost(Depth(levels), levels)
    ensures WalkFilled(size, levels) == WalkFilled(Depth(levels), levels)
    decreases |levels|
  {
    DepthNonNegative(levels);
    if levels != [] {
      var s, tail := levels[0].size, levels[1..];
      DepthNonNegative(tail);
      WalkStopsAtDepth(size - s, tail);
      WalkWholeLevel(size, levels);
      WalkWholeLevel(Depth(levels), levels);
      hide Times;
    }
  }

  // So its price is that of what the book can fill.
  lemma VwapOfFill(size: real, levels: seq<BookLevel>)
    requires NonNegativeSizes(levels)
    ensures Vwap(size, levels) == Vwap(Min(size, Depth(levels)), levels)
  {
    if Depth(levels) < size {
      WalkStopsAtDepth(size, levels);
    }
    hide WalkCost, WalkFilled;
  }

  lemma EmptyBookPrice(size: real, levels: seq<BookLevel>)
    requires NonNegativeSizes(levels) && Depth(levels) == 0.0
    ensures Vwap(size, levels) == 0.0
  {
    WalkFillsMinOfSizeAndDepth(size, levels);
    hide WalkCost, WalkFilled, Depth;
  }

  // Buying more never lowers the average price paid, within the book or beyond it.
  lemma VwapAscends(x: real, y: real, levels: seq<BookLevel>)
    requires Ascending(levels) && NonNegativeSizes(levels)
    requires 0.0 < x <= y
    ensures Vwap(x, levels) <= Vwap(y, levels)
  {
    var depth := Depth(levels);
    DepthNonNegative(levels);
    hide Depth, WalkCost, WalkFilled;
    if depth == 0.0 {
      EmptyBookPrice(x, levels);
      EmptyBookPrice(y, levels);
    } else {
      VwapOfFill(x, levels);
      VwapOfFill(y, levels);
      WalkFillsMinOfSizeAndDepth(Min(x, depth), levels);
      WalkFillsMinOfSizeAndDepth(Min(y, depth), levels);
      AveragesAscend(Min(x, depth), Min(y, depth), levels);
    }
  }

  // ---------------------------------------------------------------------------------------------
  // Descending books: the mirror image
  // ---------------------------------------------------------------------------------------------

  // The same offers with prices negated; selling at p is buying at -p.
  function Mirror(levels: seq<BookLevel>): (m: seq<BookLevel>)
    ensures |m| == |levels|
    ensures forall i :: 0 <= i < |m| ==> m[i] == BookLevel(-levels[i].price, levels[i].size)
  {
    if levels == [] then []
    else [BookLevel(-levels[0].price, levels[0].size)] + Mirror(levels[1..])
  }

  lemma {:induction false} MirrorWalk(size: real, levels: seq<BookLevel>)
    ensures WalkCost(size, Mirror(levels)) == -WalkCost(size, levels)
    ensures WalkFilled(size, Mirror(levels)) == WalkFilled(size, levels)
    ensures Depth(Mirror(levels)) == Depth(levels)
    decreases |levels|
  {
    if levels != [] {
      var take := Min(levels[0].size, size);
      assert Mirror(levels)[1..] == Mirror(levels[1..]);
      MirrorWalk(size - take, levels[1..]);
      hide Times;
      TimesNegative(take, levels[0].price);
    }
  }

  lemma {:induction false} MirrorCost(alloc: seq<real>, levels: seq<BookLevel>)
    requires |alloc| == |levels|
    ensures Cost(alloc, Mirror(levels)) == -Cost(alloc, levels)
  {
    if alloc != [] {
      assert Mirror(levels)[1..] == Mirror(levels[1..]);
      MirrorCost(alloc[1..], levels[1..]);
      hide Times;
      TimesNegative(alloc[0], levels[0].price);
    }
  }

  // No allocation sells the same amount into a descending book for more than the walk does.
  lemma WalkEarnsMost(alloc: seq<real>, levels: seq<BookLevel>)
    requires Descending(levels)
    requires Feasible(alloc, levels)
    ensures Cost(alloc, levels) <= WalkCost(Total(alloc), levels)
  {
    WalkIsCheapest(alloc, Mirror(levels));
    MirrorWalk(Total(alloc), levels);
    MirrorCost(alloc, levels);
  }

  lemma NegatedQuotient(cost: real, filled: real)
    ensures filled != 0.0 ==> -cost / filled == -(cost / filled)
  {}

  lemma MirrorVwap(size: real, levels: seq<BookLevel>)
    ensures Vwap(size, Mirror(levels)) == -Vwap(size, levels)
  {
    MirrorWalk(size, levels);
    NegatedQuotient(WalkCost(size, levels), WalkFilled(size, levels));
  }

  // Selling more never raises the average price received, within the book or beyond it.
  lemma VwapDescends(x: real, y: real, levels: seq<BookLevel>)
    requires Descending(levels) && NonNegativeSizes(levels)
    requires 0.0 < x <= y
    ensures Vwap(y, levels) <= Vwap(x, levels)
  {
    MirrorVwap(x, levels);
    MirrorVwap(y, levels);
    MirrorWalk(x, levels);
    VwapAscends(x, y, Mirror(levels));
  }

  lemma BestPriceStep(best: real, vwap: real, size: real, cost: real)
    requires 0.0 < size && vwap * size == cost
    requires best * size <= cost
    ensures best <= vwap
  {
    MulCancel(best, vwap, size);
  }

  lemma AverageAtLeastBest(size: real, levels: seq<BookLevel>)
    requires Ascending(levels) && NonNegativeSizes(levels)
    requires 0.0 < size <= Depth(levels)
    ensures levels != [] && levels[0].price <= Vwap(size, levels)
  {
    FullFill(size, levels);
    MarginalCostAtLeast(0.0, size, size, levels, levels[0].price);
    NothingToWalk(0.0, levels);
    hide WalkCost, Depth;
    BestPriceStep(levels[0].price, Vwap(size, levels), size, WalkCost(size, levels));
  }

  // The average price lies on the right side of the best quote whenever anything is filled.
  lemma VwapAtLeastBest(size: real, levels: seq<BookLevel>)
    requires Ascending(levels) && NonNegativeSizes(levels)
    requires 0.0 < size && 0.0 < Depth(levels)
    ensures levels != [] && levels[0].price <= Vwap(size, levels)
  {
    VwapOfFill(size, levels);
    AverageAtLeastBest(Min(size, Depth(levels)), levels);
  }

  lemma {:induction false} WalkCostPositive(size: real, levels: seq<BookLevel>)
    requires NonNegativeSizes(levels) && PositivePrices(levels)
    requires 0.0 < size <= Depth(levels)
    ensures 0.0 < WalkCost(size, levels)
    decreases |levels|
  {
    hide Times;
    var take := Min(levels[0].size, size);
    WalkCostStep(size, levels, take, size - take, levels[1..]);
    TimesZero(levels[0].price);
    NothingToWalk(0.0, levels[1..]);
    if 0.0 < take {
      TimesPositive(take, levels[0].price);
    }
    if take < size {
      WalkCostPositive(size - take, levels[1..]);
    }
  }

  lemma VwapPositive(size: real, levels: seq<BookLevel>)
    requires NonNegativeSizes(levels) && PositivePrices(levels)
    requires 0.0 < size <= Depth(levels)
    ensures 0.0 < Vwap(size, levels)
  {
    FullFill(size, levels);
    WalkCostPositive(size, levels);
    if Vwap(size, levels) <= 0.0 {
      MulMono(Vwap(size, levels), 0.0, size);
      assert false;
    }
  }
}

// The payoff chart of a box (frontend/src/pages/structured/payoff.ts).
module PayoffChart {
  import opened BoxSpreads
  import opened OptionEconomics
  import opened Orders
  import opened Quotes
  import opened RealArithmetic
  import opened StableSorting
  import opened Wrappers

  datatype ChartLeg = ChartLeg(instrument: string, side: Side, price: real)

  datatype SpreadDebits = SpreadDebits(callDebit: real, putDebit: real)

  datatype Point = Point(s: real, bull: real, bear: real, box: real)

  function TrimEnd(s: string): string {
    if s != [] && Last(s) == ' ' then TrimEnd(Front(s)) else s
  }

  // The last letter of the normalized name.
  function LegType(leg: ChartLeg): OptionType {
    var name := TrimEnd(leg.instrument);
    if name != [] && Last(name) == 'P' then Put else Call
  }

  // The first leg of that type and side.
  function Find(legs: seq<ChartLeg>, optionType: OptionType, side: Side): Option<ChartLeg> {
    if legs == [] then None
    else if LegType(legs[0]) == optionType && legs[0].side == side then Some(legs[0])
    else Find(legs[1..], optionType, side)
  }

  function Debits(legs: seq<ChartLeg>): Option<SpreadDebits> {
    var c1, c2 := Find(legs, Call, Buy), Find(legs, Call, Sell);
    var p1, p2 := Find(legs, Put, Sell), Find(legs, Put, Buy);
    if c1.None? || c2.None? || p1.None? || p2.None? then None
    else Some(SpreadDebits(c1.value.price - c2.value.price, p2.value.price - p1.value.price))
  }

  function Clamp(x: real, lo: real, hi: real): real {
    Max(lo, Min(hi, x))
  }

  function PointAt(s: real, d: SpreadDebits, k1: real, k2: real, box: real): Point {
    Point(s, Clamp(s - k1, 0.0, k2 - k1) - d.callDebit, Clamp(k2 - s, 0.0, k2 - k1) - d.putDebit, box)
  }

  // Price i of n, spread evenly from 60% of the width below the low strike to 60% above the high one.
  function PriceAt(k1: real, k2: real, n: nat, i: nat): real
    requires n > 1
  {
    var lo := k1 - (k2 - k1) * 0.6;
    var hi := k2 + (k2 - k1) * 0.6;
    lo + Times((hi - lo) / (n - 1) as real, i as real)
  }

  // A single point divides by zero: its price and both spreads are not a number.
  datatype Charted = At(pt: Point) | Undefined(box: real)

  method PayoffSeries(legs: seq<ChartLeg>, entryCost: real, maxFees: real, k1: real, k2: real, points: nat)
    returns (series: Option<seq<Charted>>)
    ensures series.None? <==> Debits(legs).None? || k2 <= k1
    ensures series.Some? ==> |series.value| == points
    ensures series.Some? && points == 1 ==> series.value == [Undefined(k2 - k1 - entryCost - maxFees)]
    ensures series.Some? && points != 1 ==> forall i :: 0 <= i < points ==>
      series.value[i] == At(PointAt(PriceAt(k1, k2, points, i), Debits(legs).value, k1, k2, k2 - k1 - entryCost - maxFees))
  {
    hide Debits, PointAt, Times;
    var debits := Debits(legs);
    if debits.None? || k2 <= k1 {
      return None;
    }
    var width := k2 - k1;
    var box := width - entryCost - maxFees;
    var lo := k1 - width * 0.6;
    var hi := k2 + width * 0.6;
    if points == 1 {
      return Some([Undefined(box)]);
    }
    var step := if points == 0 then 0.0 else (hi - lo) / (points - 1) as real;
    var out: seq<Charted> := [];
    for i := 0 to points
      invariant |out| == i
      invariant forall j :: 0 <= j < i ==> out[j] == At(PointAt(PriceAt(k1, k2, points, j), debits.value, k1, k2, box))
    {
      var s := lo + Times(step, i as real);
      out := out + [At(PointAt(s, debits.value, k1, k2, box))];
    }
    return Some(out);
  }

  lemma StepPositive(step: real, m: real)
    requires 0.0 < Times(step, m) && 0.0 < m
    ensures 0.0 < step
  {
    if step <= 0.0 {
      TimesMono(step, 0.0, m);
    }
  }

  // The chart spans the strikes: it starts 60% of their distance below the low one, ends as far above the
  // high one and ascends.
  lemma ChartSpansStrikes(k1: real, k2: real, n: nat, i: nat)
    requires n > 1 && k1 < k2 && i < n - 1
    ensures PriceAt(k1, k2, n, 0) < k1 && k2 < PriceAt(k1, k2, n, n - 1)
    ensures PriceAt(k1, k2, n, 0) == k1 - 0.6 * (k2 - k1) && PriceAt(k1, k2, n, n - 1) == k2 + 0.6 * (k2 - k1)
    ensures PriceAt(k1, k2, n, i) < PriceAt(k1, k2, n, i + 1)
  {
    var width := (k2 + (k2 - k1) * 0.6) - (k1 - (k2 - k1) * 0.6);
    var m := (n - 1) as real;
    var step := width / m;
    DivMul(width, m);
    assert Times(step, m) == width;
    TimesZero(step);
    StepPositive(step, m);
    TimesSplit((i + 1) as real, i as real, 1.0, step);
    assert Times(step, 1.0) == step;
    hide Times;
  }

  // The two charted spreads add up to the locked box before fees at every price exactly when their
  // debits add up to the snapshot's entry cost.
  lemma BullPlusBear(s: real, d: SpreadDebits, k1: real, k2: real, entryCost: real, maxFees: real)
    requires k1 < k2
    ensures var p := PointAt(s, d, k1, k2, k2 - k1 - entryCost - maxFees);
      p.bull + p.bear == p.box + maxFees <==> d.callDebit + d.putDebit == entryCost
  {
    assert Clamp(s - k1, 0.0, k2 - k1) + Clamp(k2 - s, 0.0, k2 - k1) == k2 - k1;
  }

  // ---------------------------------------------------------------------------------------------
  // The chart of a detected box
  // ---------------------------------------------------------------------------------------------

  // The name ends with the letter of its type.
  predicate Named(q: Quote) {
    q.name != [] && Last(q.name) == if q.optionType == Put then 'P' else 'C'
  }

  function ChartLegs(b: Box): seq<ChartLeg> {
    [ChartLeg(b.longC1.name, Buy, b.longC1.askPrice), ChartLeg(b.shortP1.name, Sell, b.shortP1.bidPrice),
     ChartLeg(b.shortC2.name, Sell, b.shortC2.bidPrice), ChartLeg(b.longP2.name, Buy, b.longP2.askPrice)]
  }

  // The charted legs are the box's own: each at its price, bought at the ask and sold at the bid.
  lemma ChartLegsAreQuoted(b: Box, i: nat)
    requires i < |ChartLegs(b)|
    ensures |ChartLegs(b)| == 4
    ensures var leg := ChartLegs(b)[i];
      var q := if i == 0 then b.longC1 else if i == 1 then b.shortP1 else if i == 2 then b.shortC2 else b.longP2;
      leg.instrument == q.name && leg.price == (if leg.side == Buy then q.askPrice else q.bidPrice)
  {}

  lemma NameTellsType(q: Quote, side: Side, price: real)
    requires Named(q)
    ensures LegType(ChartLeg(q.name, side, price)) == q.optionType
  {
    assert TrimEnd(q.name) == q.name;
  }

  lemma FindFour(c1: ChartLeg, p1: ChartLeg, c2: ChartLeg, p2: ChartLeg)
    requires LegType(c1) == LegType(c2) == Call && LegType(p1) == LegType(p2) == Put
    requires c1.side == p2.side == Buy && p1.side == c2.side == Sell
    ensures Debits([c1, p1, c2, p2]) == Some(SpreadDebits(c1.price - c2.price, p2.price - p1.price))
  {
    hide LegType;
    var legs := [c1, p1, c2, p2];
    assert legs[1..] == [p1, c2, p2] && legs[1..][1..] == [c2, p2] && legs[1..][1..][1..] == [p2];
    assert Find(legs, Call, Buy) == Some(c1);
    assert Find(legs[1..][1..], Call, Sell) == Some(c2) == Find(legs[1..], Call, Sell) == Find(legs, Call, Sell);
    assert Find(legs[1..], Put, Sell) == Some(p1) == Find(legs, Put, Sell);
    assert Find(legs[1..][1..][1..], Put, Buy) == Some(p2) == Find(legs[1..][1..], Put, Buy) == Find(legs[1..], Put, Buy);
  }

  // For a detected box the chart exists, shows the reported edge as its flat line and the payoffs of
  // the legs actually quoted as its two spreads, and these add up to that line plus the fees.
  lemma ChartOfBox(g: Group, k1: real, k2: real, t: Thresholds, s: real)
    requires k1 < k2 && TryBox(g, k1, k2, t).Some? && (forall q :: q in g.quotes ==> Named(q))
    ensures var b := TryBox(g, k1, k2, t).value;
      && Debits(ChartLegs(b)).Some?
      && var p := PointAt(s, Debits(ChartLegs(b)).value, k1, k2, k2 - k1 - b.entryCost - b.maxFees);
      && p.box == b.minProfitPerUnit && p.bull + p.bear == p.box + b.maxFees
      && p.bull == (Payoff(b.longC1, s) - b.longC1.askPrice) + (b.shortC2.bidPrice - Payoff(b.shortC2, s))
      && p.bear == (Payoff(b.longP2, s) - b.longP2.askPrice) + (b.shortP1.bidPrice - Payoff(b.shortP1, s))
  {
    EmittedLegs(g, k1, k2, t);
    var b := TryBox(g, k1, k2, t).value;
    hide TryBox, Quoted;
    NameTellsType(b.longC1, Buy, b.longC1.askPrice);
    NameTellsType(b.shortP1, Sell, b.shortP1.bidPrice);
    NameTellsType(b.shortC2, Sell, b.shortC2.bidPrice);
    NameTellsType(b.longP2, Buy, b.longP2.askPrice);
    var legs := ChartLegs(b);
    hide LegType, Named;
    FindFour(legs[0], legs[1], legs[2], legs[3]);
    assert legs == [legs[0], legs[1], legs[2], legs[3]];
    hide Debits, Fees;
    BullPlusBear(s, Debits(legs).value, k1, k2, b.entryCost, b.maxFees);
  }
}

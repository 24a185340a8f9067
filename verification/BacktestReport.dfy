// Portfolio backtest, the whole simulation and its breakdown by venue pair
// (backend/src/option_arb/services/opportunity_backtest.py).
module BacktestReport {
  import opened BacktestAdmission
  import opened BacktestCurve
  import opened RealArithmetic
  import opened StableSorting
  import opened Wrappers

  // ---------------------------------------------------------------------------------------------
  // Breakdown by venue pair
  // ---------------------------------------------------------------------------------------------

  const SECONDS_PER_DAY := 86400.0

  datatype Pair = Pair(buyFrom: string, sellTo: string)

  datatype PairRow = PairRow(pair: Pair, nTaken: nat, netProfit: real, peak: real)

  function PairOf(p: Position): Pair {
    Pair(p.buyFrom, p.sellTo)
  }

  // Texts compare character by character.
  predicate TextLess(a: string, b: string) {
    b != [] && (a == [] || a[0] < b[0] || (a[0] == b[0] && TextLess(a[1..], b[1..])))
  }

  lemma {:induction false} TextOrder(a: string, b: string)
    ensures TextLess(a, b) || TextLess(b, a) || a == b
    ensures TextLess(a, b) ==> !TextLess(b, a) && a != b
  {
    if a != [] && b != [] && a[0] == b[0] {
      TextOrder(a[1..], b[1..]);
      assert a == [a[0]] + a[1..] && b == [b[0]] + b[1..];
    }
  }

  lemma {:induction false} TextLessChains(a: string, b: string, c: string)
    requires TextLess(a, b) && TextLess(b, c)
    ensures TextLess(a, c)
  {
    if a != [] && a[0] == b[0] == c[0] {
      TextLessChains(a[1..], b[1..], c[1..]);
    }
  }

  predicate PairLess(p: Pair, q: Pair) {
    TextLess(p.buyFrom, q.buyFrom) || (p.buyFrom == q.buyFrom && TextLess(p.sellTo, q.sellTo))
  }

  lemma PairOrder(p: Pair, q: Pair)
    ensures PairLess(p, q) || PairLess(q, p) || p == q
    ensures PairLess(p, q) ==> !PairLess(q, p) && p != q
  {
    hide TextLess;
    TextOrder(p.buyFrom, q.buyFrom);
    TextOrder(p.sellTo, q.sellTo);
  }

  lemma PairLessChains(p: Pair, q: Pair, r: Pair)
    requires PairLess(p, q) && PairLess(q, r)
    ensures PairLess(p, r)
  {
    hide TextLess;
    if TextLess(p.buyFrom, q.buyFrom) && TextLess(q.buyFrom, r.buyFrom) {
      TextLessChains(p.buyFrom, q.buyFrom, r.buyFrom);
    } else if p.buyFrom == q.buyFrom == r.buyFrom {
      if TextLess(p.sellTo, q.sellTo) && TextLess(q.sellTo, r.sellTo) {
        TextLessChains(p.sellTo, q.sellTo, r.sellTo);
      }
      TextOrder(p.buyFrom, q.buyFrom);
    }
  }

  predicate PairsAscend(keys: seq<Pair>) {
    forall i, j :: 0 <= i < j < |keys| ==> PairLess(keys[i], keys[j])
  }

  function InsertPair(keys: seq<Pair>, key: Pair): seq<Pair> {
    if keys == [] || PairLess(Last(keys), key) then keys + [key]
    else if key == Last(keys) then keys
    else InsertPair(Front(keys), key) + [Last(keys)]
  }

  lemma {:induction false} InsertKeepsPairs(keys: seq<Pair>, key: Pair)
    ensures forall k :: k in InsertPair(keys, key) <==> k in keys || k == key
  {
    if keys != [] {
      assert keys == Front(keys) + [Last(keys)];
      InsertKeepsPairs(Front(keys), key);
    }
  }

  lemma {:induction false} InsertPairAscends(keys: seq<Pair>, key: Pair)
    requires PairsAscend(keys)
    ensures PairsAscend(InsertPair(keys, key))
  {
    hide PairLess;
    if keys != [] {
      var last, front := Last(keys), InsertPair(Front(keys), key);
      if PairLess(last, key) {
        forall i | 0 <= i < |keys|
          ensures PairLess(keys[i], key)
        {
          if i < |keys| - 1 {
            PairLessChains(keys[i], last, key);
          }
        }
      } else if key != last {
        PairOrder(key, last);
        InsertPairAscends(Front(keys), key);
        InsertKeepsPairs(Front(keys), key);
        hide InsertPair;
        forall i | 0 <= i < |front|
          ensures PairLess(front[i], last)
        {
          assert front[i] in front;
        }
      }
    }
  }

  // The pairs that occur, each once, by name.
  function Keys(taken: seq<Position>): seq<Pair> {
    if taken == [] then [] else InsertPair(Keys(Front(taken)), PairOf(Last(taken)))
  }

  function Subset(taken: seq<Position>, key: Pair): seq<Position> {
    if taken == [] then []
    else Subset(Front(taken), key) + if PairOf(Last(taken)) == key then [Last(taken)] else []
  }

  function Profit(p: Position): real {
    p.profit
  }

  function Fees(p: Position): real {
    p.fees
  }

  function RowOf(taken: seq<Position>, key: Pair): PairRow {
    var subset := Subset(taken, key);
    PairRow(key, |subset|, Sum(subset, Profit), Peak(Timeline(subset, None)))
  }

  method PeakOf(events: seq<Event>) returns (peak: real)
    ensures peak == Peak(events)
  {
    var cap := 0.0;
    peak := 0.0;
    assert events[..0] == [] && events[..|events|] == events;
    for i := 0 to |events|
      invariant cap == Cap(events[..i]) && peak == Peak(events[..i])
    {
      assert Front(events[..i + 1]) == events[..i] && Last(events[..i + 1]) == events[i];
      cap := cap + events[i].dcap;
      if cap > peak {
        peak := cap;
      }
    }
  }

  function PairRows(taken: seq<Position>): seq<PairRow> {
    seq(|Keys(taken)|, i requires 0 <= i < |Keys(taken)| => RowOf(taken, Keys(taken)[i]))
  }

  // A row goes behind every row that earned at least as much.
  function RankIn(row: PairRow, ranked: seq<PairRow>): seq<PairRow> {
    if ranked == [] || row.netProfit <= Last(ranked).netProfit then ranked + [row]
    else RankIn(row, Front(ranked)) + [Last(ranked)]
  }

  function Ranked(rows: seq<PairRow>): seq<PairRow> {
    if rows == [] then [] else RankIn(Last(rows), Ranked(Front(rows)))
  }

  // One row per pair, the most profitable first and those of equal profit by name.
  method BreakdownByPair(taken: seq<Position>) returns (rows: seq<PairRow>)
    ensures rows == Ranked(PairRows(taken))
  {
    var keys := Keys(taken);
    var found: seq<PairRow> := [];
    for i := 0 to |keys|
      invariant |found| == i
      invariant forall j :: 0 <= j < i ==> found[j] == RowOf(taken, keys[j])
    {
      hide Peak, Events, Subset, Sum, Sorted;
      var subset := Subset(taken, keys[i]);
      var events := CollectEvents(subset, None);
      var peak := PeakOf(Sorted(events, TimeKey));
      found := found + [PairRow(keys[i], |subset|, Sum(subset, Profit), peak)];
    }
    assert found == PairRows(taken);
    rows := Ranked(found);
  }

  predicate RowBefore(a: PairRow, b: PairRow) {
    b.netProfit < a.netProfit || (b.netProfit == a.netProfit && PairLess(a.pair, b.pair))
  }

  predicate RowsOrdered(rows: seq<PairRow>) {
    forall i, j :: 0 <= i < j < |rows| ==> RowBefore(rows[i], rows[j])
  }

  lemma {:induction false} RankInPermutes(row: PairRow, ranked: seq<PairRow>)
    ensures multiset(RankIn(row, ranked)) == multiset(ranked) + multiset{row}
    ensures forall r :: r in RankIn(row, ranked) <==> r in ranked || r == row
  {
    if ranked != [] {
      assert ranked == Front(ranked) + [Last(ranked)];
      RankInPermutes(row, Front(ranked));
    }
  }

  lemma {:induction false} RankInOrders(row: PairRow, ranked: seq<PairRow>)
    requires RowsOrdered(ranked) && forall i :: 0 <= i < |ranked| ==> PairLess(ranked[i].pair, row.pair)
    ensures RowsOrdered(RankIn(row, ranked))
  {
    hide PairLess;
    if ranked != [] {
      var last := Last(ranked);
      if row.netProfit <= last.netProfit {
        assert forall i :: 0 <= i < |ranked| - 1 ==> RowBefore(ranked[i], last);
      } else {
        var front := RankIn(row, Front(ranked));
        RankInOrders(row, Front(ranked));
        RankInPermutes(row, Front(ranked));
        hide RankIn;
        forall i | 0 <= i < |front|
          ensures RowBefore(front[i], last)
        {
          assert front[i] in front;
        }
      }
    }
  }

  lemma {:induction false} RankedPermutes(rows: seq<PairRow>)
    ensures multiset(Ranked(rows)) == multiset(rows)
    ensures forall r :: r in Ranked(rows) <==> r in rows
  {
    if rows != [] {
      RankedPermutes(Front(rows));
      RankInPermutes(Last(rows), Ranked(Front(rows)));
      assert rows == Front(rows) + [Last(rows)];
      hide RankIn;
    }
  }

  predicate NamesAscend(rows: seq<PairRow>) {
    forall i, j :: 0 <= i < j < |rows| ==> PairLess(rows[i].pair, rows[j].pair)
  }

  // Ranking permutes rows given by name into descending profit, and keeps those of equal profit by name.
  lemma {:induction false} RankedIsRanking(rows: seq<PairRow>)
    requires NamesAscend(rows)
    ensures multiset(Ranked(rows)) == multiset(rows) && RowsOrdered(Ranked(rows))
  {
    RankedPermutes(rows);
    if rows != [] {
      var ranked := Ranked(Front(rows));
      RankedIsRanking(Front(rows));
      RankedPermutes(Front(rows));
      hide RankIn, RowsOrdered, PairLess;
      forall i | 0 <= i < |ranked|
        ensures PairLess(ranked[i].pair, Last(rows).pair)
      {
        assert ranked[i] in ranked;
      }
      RankInOrders(Last(rows), ranked);
    }
  }

  predicate Distinct(keys: seq<Pair>) {
    forall i, j :: 0 <= i < j < |keys| ==> keys[i] != keys[j]
  }

  lemma {:induction false} KeysAscend(taken: seq<Position>)
    ensures PairsAscend(Keys(taken))
    ensures forall i :: 0 <= i < |taken| ==> PairOf(taken[i]) in Keys(taken)
  {
    if taken != [] {
      KeysAscend(Front(taken));
      InsertPairAscends(Keys(Front(taken)), PairOf(Last(taken)));
      InsertKeepsPairs(Keys(Front(taken)), PairOf(Last(taken)));
      hide InsertPair, PairsAscend;
      forall i | 0 <= i < |taken|
        ensures PairOf(taken[i]) in Keys(taken)
      {
        if i < |taken| - 1 {
          assert Front(taken)[i] == taken[i];
        }
      }
    }
  }

  lemma KeysAreDistinctAndComplete(taken: seq<Position>)
    ensures Distinct(Keys(taken))
    ensures forall i :: 0 <= i < |taken| ==> PairOf(taken[i]) in Keys(taken)
  {
    KeysAscend(taken);
    hide Keys, PairLess;
    var keys := Keys(taken);
    forall i, j | 0 <= i < j < |keys|
      ensures keys[i] != keys[j]
    {
      PairOrder(keys[i], keys[j]);
    }
  }

  // The report lists its pairs by descending profit and then by name.
  lemma BreakdownIsOrdered(taken: seq<Position>)
    ensures multiset(Ranked(PairRows(taken))) == multiset(PairRows(taken)) && RowsOrdered(Ranked(PairRows(taken)))
  {
    KeysAscend(taken);
    var rows := PairRows(taken);
    assert forall i :: 0 <= i < |rows| ==> rows[i].pair == Keys(taken)[i];
    hide Keys, PairRows, RowOf;
    assert NamesAscend(rows);
    RankedIsRanking(rows);
  }

  // Total of w over the parts belonging to `keys`.
  function SumOfParts(taken: seq<Position>, keys: seq<Pair>, w: Position -> real): real {
    if keys == [] then 0.0
    else SumOfParts(taken, Front(keys), w) + Sum(Subset(taken, Last(keys)), w)
  }

  lemma {:induction false} PartsOfExtension(taken: seq<Position>, p: Position, keys: seq<Pair>, w: Position -> real)
    requires Distinct(keys)
    ensures SumOfParts(taken + [p], keys, w)
         == SumOfParts(taken, keys, w) + if PairOf(p) in keys then w(p) else 0.0
  {
    if keys != [] {
      var key := Last(keys);
      PartsOfExtension(taken, p, Front(keys), w);
      assert Front(taken + [p]) == taken;
      assert PairOf(p) == key ==> Subset(taken + [p], key) == Subset(taken, key) + [p];
      assert PairOf(p) != key ==> Subset(taken + [p], key) == Subset(taken, key);
      SumOfExtension(Subset(taken, key), p, w);
      assert PairOf(p) in keys <==> PairOf(p) in Front(keys) || PairOf(p) == key;
      assert key !in Front(keys);
    }
  }

  lemma {:induction false} PartsOfNothing(keys: seq<Pair>, w: Position -> real)
    ensures SumOfParts([], keys, w) == 0.0
  {
    if keys != [] {
      PartsOfNothing(Front(keys), w);
    }
  }

  // The parts add up to the whole.
  lemma {:induction false} PartsAddUp(taken: seq<Position>, keys: seq<Pair>, w: Position -> real)
    requires Distinct(keys)
    requires forall i :: 0 <= i < |taken| ==> PairOf(taken[i]) in keys
    ensures SumOfParts(taken, keys, w) == Sum(taken, w)
  {
    if taken == [] {
      PartsOfNothing(keys, w);
    } else {
      PartsAddUp(Front(taken), keys, w);
      PartsOfExtension(Front(taken), Last(taken), keys, w);
      assert Front(taken) + [Last(taken)] == taken;
    }
  }

  lemma {:induction false} SubsetFacts(taken: seq<Position>, key: Pair)
    ensures forall p :: p in Subset(taken, key) ==> p in taken
    ensures AllWellFormed(taken) ==> AllWellFormed(Subset(taken, key))
    ensures Ordered(taken, EntryKey) ==> Ordered(Subset(taken, key), EntryKey)
  {
    if taken != [] {
      var rest, p := Subset(Front(taken), key), Last(taken);
      SubsetFacts(Front(taken), key);
      if Ordered(taken, EntryKey) {
        forall i | 0 <= i < |rest|
          ensures EntryKey(rest[i]) <= EntryKey(p)
        {
          assert rest[i] in rest;
          var j :| 0 <= j < |Front(taken)| && Front(taken)[j] == rest[i];
          assert EntryKey(taken[j]) <= EntryKey(taken[|taken| - 1]);
        }
      }
    }
  }

  // The positions of a pair are those taken that buy and sell on its venues.
  lemma {:induction false} SubsetIs(taken: seq<Position>, key: Pair, p: Position)
    ensures p in Subset(taken, key) <==> p in taken && p.buyFrom == key.buyFrom && p.sellTo == key.sellTo
  {
    if taken != [] {
      SubsetIs(Front(taken), key, p);
      assert p in taken <==> p in Front(taken) || p == Last(taken);
    }
  }

  // Totals grow by what each position adds.
  lemma TotalsAdd(taken: seq<Position>, p: Position)
    ensures Sum(taken + [p], Fees) == Sum(taken, Fees) + p.fees
    ensures Sum(taken + [p], Profit) == Sum(taken, Profit) + p.profit
  {
    SumOfExtension(taken, p, Fees);
    SumOfExtension(taken, p, Profit);
    hide Sum;
  }

  lemma {:induction false} SubsetIsBelow(taken: seq<Position>, key: Pair, t: int)
    requires AllWellFormed(taken)
    ensures Active(Subset(taken, key), t) <= Active(taken, t)
  {
    if taken != [] {
      SubsetIsBelow(Front(taken), key, t);
      SumOfExtension(Subset(Front(taken), key), Last(taken), ActiveWeight(t));
      assert Subset(Front(taken), key) + [] == Subset(Front(taken), key);
    }
  }

  lemma PairPeakIsExact(taken: seq<Position>, key: Pair)
    requires Ordered(taken, EntryKey) && AllWellFormed(taken)
    ensures IsPeakCapital(RowOf(taken, key).peak, Subset(taken, key))
  {
    SubsetFacts(taken, key);
    PeakIsExact(Subset(taken, key), None);
  }

  function SumOfPeaks(taken: seq<Position>, keys: seq<Pair>): real {
    if keys == [] then 0.0 else SumOfPeaks(taken, Front(keys)) + RowOf(taken, Last(keys)).peak
  }

  lemma {:induction false} PartsBelowPeaks(taken: seq<Position>, keys: seq<Pair>, t: int)
    requires Ordered(taken, EntryKey) && AllWellFormed(taken)
    ensures SumOfParts(taken, keys, ActiveWeight(t)) <= SumOfPeaks(taken, keys)
  {
    if keys != [] {
      PartsBelowPeaks(taken, Front(keys), t);
      PairPeakIsExact(taken, Last(keys));
      assert Active(Subset(taken, Last(keys)), t) <= RowOf(taken, Last(keys)).peak;
    }
  }

  // Each pair peaks below the portfolio, which peaks below the sum of the pairs.
  lemma PairPeaksBracketPeak(taken: seq<Position>, peak: real, key: Pair)
    requires Ordered(taken, EntryKey) && AllWellFormed(taken)
    requires IsPeakCapital(peak, taken)
    ensures RowOf(taken, key).peak <= peak <= SumOfPeaks(taken, Keys(taken))
  {
    PairPeakIsExact(taken, key);
    var t :| Active(Subset(taken, key), t) == RowOf(taken, key).peak;
    SubsetIsBelow(taken, key, t);
    var u :| Active(taken, u) == peak;
    KeysAreDistinctAndComplete(taken);
    PartsAddUp(taken, Keys(taken), ActiveWeight(u));
    PartsBelowPeaks(taken, Keys(taken), u);
  }

  function One(p: Position): real {
    1.0
  }

  lemma {:induction false} SumOfOnes(s: seq<Position>)
    ensures Sum(s, One) == |s| as real
  {
    if s != [] {
      SumOfOnes(Front(s));
    }
  }

  function RowCounts(rows: seq<PairRow>): nat {
    if rows == [] then 0 else RowCounts(Front(rows)) + Last(rows).nTaken
  }

  function RowProfits(rows: seq<PairRow>): real {
    if rows == [] then 0.0 else RowProfits(Front(rows)) + Last(rows).netProfit
  }

  lemma {:induction false} RowsAreParts(taken: seq<Position>, keys: seq<Pair>, rows: seq<PairRow>)
    requires |rows| == |keys| && forall i :: 0 <= i < |rows| ==> rows[i] == RowOf(taken, keys[i])
    ensures RowCounts(rows) as real == SumOfParts(taken, keys, One)
    ensures RowProfits(rows) == SumOfParts(taken, keys, Profit)
  {
    if rows != [] {
      hide Peak, Events, Sorted;
      RowsAreParts(taken, Front(keys), Front(rows));
      SumOfOnes(Subset(taken, Last(keys)));
    }
  }

  lemma {:induction false} RankInConserves(row: PairRow, ranked: seq<PairRow>)
    ensures RowCounts(RankIn(row, ranked)) == RowCounts(ranked) + row.nTaken
    ensures RowProfits(RankIn(row, ranked)) == RowProfits(ranked) + row.netProfit
  {
    if ranked == [] || row.netProfit <= Last(ranked).netProfit {
      assert Front(ranked + [row]) == ranked;
    } else {
      RankInConserves(row, Front(ranked));
      assert Front(RankIn(row, Front(ranked)) + [Last(ranked)]) == RankIn(row, Front(ranked));
    }
  }

  lemma {:induction false} RankedConserves(rows: seq<PairRow>)
    ensures RowCounts(Ranked(rows)) == RowCounts(rows) && RowProfits(Ranked(rows)) == RowProfits(rows)
  {
    if rows != [] {
      RankedConserves(Front(rows));
      RankInConserves(Last(rows), Ranked(Front(rows)));
      hide RankIn;
    }
  }

  // Pair counts add up to the positions taken, pair profits to their whole profit.
  lemma RowsConserve(taken: seq<Position>)
    ensures RowCounts(Ranked(PairRows(taken))) == |taken|
    ensures RowProfits(Ranked(PairRows(taken))) == Sum(taken, Profit)
  {
    hide RowOf, Ranked;
    KeysAreDistinctAndComplete(taken);
    RankedConserves(PairRows(taken));
    RowsAreParts(taken, Keys(taken), PairRows(taken));
    PartsAddUp(taken, Keys(taken), One);
    PartsAddUp(taken, Keys(taken), Profit);
    SumOfOnes(taken);
  }

  // ---------------------------------------------------------------------------------------------
  // The simulation
  // ---------------------------------------------------------------------------------------------

  // Figures derived from the others.
  datatype Figures = Figures(
    returnOnPeakPct: real,
    returnOnBudgetPct: Option<real>,
    annualizedPct: real,
    winRatePct: real,
    avgHoldDays: real)

  datatype Summary = Summary(
    start: int,
    peak: real,
    avgCapital: real,
    efficiencyPct: real,
    realized: real,
    unrealized: real,
    totalFees: real,
    nCandidates: nat,
    nTaken: nat,
    nSkippedDedup: nat,
    nSkippedBudget: nat,
    nOpen: nat,
    figures: Figures)

  datatype Report = Report(summary: Summary, series: seq<Point>, rows: seq<PairRow>)

  function EmptyReport(now: int, nCandidates: nat, nDedup: nat, nBudget: nat): Report {
    Report(Summary(now, 0.0, 0.0, 0.0, 0.0, 0.0, 0.0, nCandidates, 0, nDedup, nBudget, 0,
                   Figures(0.0, None, 0.0, 0.0, 0.0)), [], [])
  }

  function OpenAt(taken: seq<Position>, now: int): seq<Position> {
    if taken == [] then []
    else OpenAt(Front(taken), now) + if now < Last(taken).expiry then [Last(taken)] else []
  }

  // The period is at least one second long.
  function PeriodSeconds(start: int, now: int): real {
    Max(Seconds(start, now), 1.0)
  }

  function PercentOf(x: real, base: real): real {
    if base > 0.0 then x / base * 100.0 else 0.0
  }

  function Wins(taken: seq<Position>): nat {
    if taken == [] then 0 else Wins(Front(taken)) + if Last(taken).profit > 0.0 then 1 else 0
  }

  function HoldSeconds(p: Position): real {
    Seconds(p.entry, p.expiry)
  }

  // Returns are on the realised profit; the yearly one takes the budget as its base when there is one.
  function FiguresOf(taken: seq<Position>, budget: Option<real>, peak: real, realized: real, periodSeconds: real):
    Figures
    requires taken != []
  {
    var base := if budget.Some? then budget.value else peak;
    var periodDays := periodSeconds / SECONDS_PER_DAY;
    Figures(PercentOf(realized, peak),
            if budget.Some? && budget.value > 0.0 then Some(PercentOf(realized, budget.value)) else None,
            if periodDays > 0.0 then PercentOf(realized, base) * 365.0 / periodDays else 0.0,
            Wins(taken) as real / |taken| as real * 100.0,
            Sum(taken, HoldSeconds) / |taken| as real / SECONDS_PER_DAY)
  }

  function Taken(positions: seq<Position>, budget: Option<real>, dedup: bool): seq<Position> {
    Admit(Sorted(positions, EntryKey), budget, dedup)
  }

  lemma NothingToSimulate(budget: Option<real>, dedup: bool)
    ensures Taken([], budget, dedup) == []
    ensures Count(Sorted([], EntryKey), budget, dedup, SkipDedup) == 0
    ensures Count(Sorted([], EntryKey), budget, dedup, SkipBudget) == 0
  {}

  lemma AverageTimesPeriod(area: real, period: real)
    requires period >= 1.0
    ensures Times(area / period, period) == area
  {
    DivMul(area, period);
  }

  method Simulate(positions: seq<Position>, budget: Option<real>, dedup: bool, now: int) returns (r: Report)
    ensures var candidates, taken := Sorted(positions, EntryKey), Taken(positions, budget, dedup);
      && r.summary.nCandidates == |positions|
      && r.summary.nTaken == |taken|
      && r.summary.nSkippedDedup == Count(candidates, budget, dedup, SkipDedup)
      && r.summary.nSkippedBudget == Count(candidates, budget, dedup, SkipBudget)
      && (taken == [] ==> r == EmptyReport(now, |positions|, r.summary.nSkippedDedup, r.summary.nSkippedBudget))
      && (taken != [] ==>
        && r.summary.start == taken[0].entry
        && Curve(r.series, r.summary.peak,
                 Times(r.summary.avgCapital, PeriodSeconds(taken[0].entry, now)), r.summary.realized)
           == CurveOf(taken, now)
        && r.summary.efficiencyPct
           == (if r.summary.peak > 0.0 then r.summary.avgCapital / r.summary.peak * 100.0 else 0.0)
        && r.summary.unrealized == Sum(OpenAt(taken, now), Profit)
        && r.summary.nOpen == |OpenAt(taken, now)|
        && r.summary.totalFees == Sum(taken, Fees)
        && r.summary.figures
           == FiguresOf(taken, budget, r.summary.peak, r.summary.realized, PeriodSeconds(taken[0].entry, now))
        && r.rows == Ranked(PairRows(taken)))
  {
    hide Sum, Peak, Series, Area, Events, Sorted, Times, Seconds, Admit, Count, Keys, RowOf, OpenAt, Ranked, PairRows, FiguresOf;
    if |positions| == 0 {
      NothingToSimulate(budget, dedup);
      return EmptyReport(now, 0, 0, 0);
    }
    var ordered := Sorted(positions, EntryKey);
    SortedIsOrderedPermutation(positions, EntryKey);
    var taken, nDedup, nBudget := AdmitAll(ordered, budget, dedup);
    if |taken| == 0 {
      return EmptyReport(now, |positions|, nDedup, nBudget);
    }
    var curve := Sweep(taken, now);
    var rows := BreakdownByPair(taken);
    var period := PeriodSeconds(taken[0].entry, now);
    var avg := curve.area / period;
    AverageTimesPeriod(curve.area, period);
    var open := OpenAt(taken, now);
    r := Report(Summary(taken[0].entry, curve.peak, avg,
                        if curve.peak > 0.0 then avg / curve.peak * 100.0 else 0.0,
                        curve.realized, Sum(open, Profit), Sum(taken, Fees),
                        |positions|, |taken|, nDedup, nBudget, |open|,
                        FiguresOf(taken, budget, curve.peak, curve.realized, period)),
                curve.series, rows);
  }

  // ---------------------------------------------------------------------------------------------
  // What a report says
  // ---------------------------------------------------------------------------------------------

  lemma TakenFacts(positions: seq<Position>, budget: Option<real>, dedup: bool, now: int)
    requires AllWellFormed(positions) && EnteredBy(positions, Some(now))
    ensures var candidates, taken := Sorted(positions, EntryKey), Taken(positions, budget, dedup);
      && Ordered(candidates, EntryKey) && AllWellFormed(candidates) && |candidates| == |positions|
      && Ordered(taken, EntryKey) && AllWellFormed(taken) && EnteredBy(taken, Some(now))
  {
    hide Sorted, Admit;
    var candidates, taken := Sorted(positions, EntryKey), Taken(positions, budget, dedup);
    SortedIsOrderedPermutation(positions, EntryKey);
    forall i | 0 <= i < |candidates|
      ensures candidates[i] in positions
    {
      assert candidates[i] in multiset(candidates);
    }
    TakenAreCandidates(candidates, budget, dedup);
    forall i | 0 <= i < |taken|
      ensures Within(taken[i].entry, Some(now))
    {
      assert taken[i] in taken;
      var j :| 0 <= j < |candidates| && candidates[j] == taken[i];
      assert candidates[j] in positions;
    }
  }

  lemma PercentStep(avg: real, peak: real)
    requires avg <= peak && 0.0 < peak
    ensures avg / peak * 100.0 <= 100.0
  {
    DivMul(avg, peak);
    MulCancel(avg / peak, 1.0, peak);
  }

  lemma PeakIsPositive(taken: seq<Position>, peak: real)
    requires taken != [] && AllWellFormed(taken) && IsPeakCapital(peak, taken)
    ensures 0.0 < peak
  {
    var t := Last(taken).entry;
    SumNonNegative(Front(taken), ActiveWeight(t));
    assert Active(taken, t) <= peak;
  }

  // Average capital lies between zero and the peak, so efficiency never exceeds 100%; the peak is the
  // true maximum over all instants.
  lemma CapitalFigures(positions: seq<Position>, budget: Option<real>, dedup: bool, now: int, avg: real)
    requires AllWellFormed(positions) && EnteredBy(positions, Some(now))
    requires Taken(positions, budget, dedup) != []
    requires var taken := Taken(positions, budget, dedup);
      Times(avg, PeriodSeconds(taken[0].entry, now)) == CurveOf(taken, now).area
    ensures var taken := Taken(positions, budget, dedup);
      var peak := CurveOf(taken, now).peak;
      && IsPeakCapital(peak, taken)
      && 0.0 <= avg <= peak && 0.0 < peak && avg / peak * 100.0 <= 100.0
  {
    var taken := Taken(positions, budget, dedup);
    var curve, period := CurveOf(taken, now), PeriodSeconds(taken[0].entry, now);
    TakenFacts(positions, budget, dedup, now);
    PeakIsExact(taken, Some(now));
    AreaWithinPeak(taken, now);
    PeakIsPositive(taken, curve.peak);
    hide Times, Seconds, Peak, Area, Series, Sorted, Events, Admit, TotalArea;
    TimesMono(Seconds(taken[0].entry, now), period, curve.peak);
    TimesCancel(avg, curve.peak, period);
    TimesZero(period);
    TimesCancel(0.0, avg, period);
    PercentStep(avg, curve.peak);
  }

  lemma {:induction false} WinsAtMostAll(taken: seq<Position>)
    ensures Wins(taken) <= |taken|
    ensures Wins(taken) == |taken| <==> forall i :: 0 <= i < |taken| ==> taken[i].profit > 0.0
    ensures Wins(taken) == 0 <==> forall i :: 0 <= i < |taken| ==> taken[i].profit <= 0.0
  {
    if taken != [] {
      WinsAtMostAll(Front(taken));
      assert forall i :: 0 <= i < |taken| - 1 ==> taken[i] == Front(taken)[i];
    }
  }

  lemma ScaledPositive(x: real, c: real)
    requires 0.0 < x && 0.0 < c
    ensures 0.0 < x / c
  {
    DivMul(x, c);
  }

  lemma {:induction false} HoldsArePositive(taken: seq<Position>)
    requires taken != [] && AllWellFormed(taken)
    ensures 0.0 < Sum(taken, HoldSeconds)
  {
    var p := taken[|taken| - 1];
    assert WellFormed(p);
    ScaledPositive((p.expiry - p.entry) as real, MICROSECONDS);
    if |taken| > 1 {
      HoldsArePositive(Front(taken));
    }
  }

  lemma ShareOfAll(part: nat, all: nat)
    requires part <= all && 0 < all
    ensures 0.0 <= part as real / all as real * 100.0 <= 100.0
    ensures part as real / all as real * 100.0 == 100.0 <==> part == all
  {
    DivMul(part as real, all as real);
    MulCancel(0.0, part as real / all as real, all as real);
    MulCancel(part as real / all as real, 1.0, all as real);
  }

  // A larger base brings the same profit closer to zero.
  lemma LargerBase(x: real, small: real, large: real)
    requires 0.0 < small <= large
    ensures 0.0 <= x ==> 0.0 <= PercentOf(x, large) <= PercentOf(x, small)
    ensures x <= 0.0 ==> PercentOf(x, small) <= PercentOf(x, large) <= 0.0
  {
    var r, s := x / small, x / large;
    DivMul(x, small);
    DivMul(x, large);
    if 0.0 <= x {
      MulCancel(0.0, s, large);
      MulMono(small, large, s);
      MulCancel(s, r, small);
    }
    if x <= 0.0 {
      MulCancel(s, 0.0, large);
      MulMono(small, large, -s);
      assert small * -s == -(s * small) && large * -s == -(s * large);
      MulCancel(r, s, small);
    }
  }

  lemma PeakWithinBudget(positions: seq<Position>, budget: real, dedup: bool, peak: real, now: int)
    requires AllWellFormed(positions) && EnteredBy(positions, Some(now)) && 0.0 <= budget
    requires IsPeakCapital(peak, Taken(positions, Some(budget), dedup))
    ensures peak <= budget
  {
    TakenFacts(positions, Some(budget), dedup, now);
    hide Sorted, Admit, Sum;
    var t :| Active(Taken(positions, Some(budget), dedup), t) == peak;
    BudgetHoldsAlways(Sorted(positions, EntryKey), budget, dedup, t);
  }

  lemma RatesAgree(taken: seq<Position>, budget: Option<real>, peak: real, realized: real, period: real)
    requires taken != [] && AllWellFormed(taken)
    ensures var f := FiguresOf(taken, budget, peak, realized, period);
      && 0.0 <= f.winRatePct <= 100.0 && 0.0 < f.avgHoldDays
      && (f.winRatePct == 100.0 <==> forall p :: p in taken ==> p.profit > 0.0)
  {
    WinsAtMostAll(taken);
    ShareOfAll(Wins(taken), |taken|);
    HoldsArePositive(taken);
    ScaledPositive(Sum(taken, HoldSeconds), |taken| as real);
    ScaledPositive(Sum(taken, HoldSeconds) / |taken| as real, SECONDS_PER_DAY);
    hide Sum, Wins, PercentOf;
  }

  // Days between entry and expiry.
  function DaysHeld(p: Position): real {
    (p.expiry - p.entry) as real / (24 * 60 * 60 * 1000000) as real
  }

  lemma SecondsOfDays(micros: real)
    ensures micros / 1000000.0 == micros / 86400000000.0 * 86400.0
  {}

  lemma {:induction false} HoldsAdd(taken: seq<Position>)
    ensures Sum(taken, HoldSeconds) == Sum(taken, DaysHeld) * SECONDS_PER_DAY
  {
    if taken != [] {
      HoldsAdd(Front(taken));
      var p := Last(taken);
      assert HoldSeconds(p) == DaysHeld(p) * SECONDS_PER_DAY by {
        SecondsOfDays((p.expiry - p.entry) as real);
      }
    }
  }

  lemma YearTimes(pct: real, period: real, base: real)
    requires 0.0 < period
    ensures 0.0 < period / SECONDS_PER_DAY
    ensures Times(Times(pct * 365.0 / (period / SECONDS_PER_DAY), period), base) == 365.0 * 86400.0 * Times(pct, base)
  {
    var days := period / SECONDS_PER_DAY;
    ScaledPositive(period, SECONDS_PER_DAY);
    DivMul(period, SECONDS_PER_DAY);
    DivMul(pct * 365.0, days);
    var yearly := pct * 365.0 / days;
    assert yearly * period == yearly * days * SECONDS_PER_DAY;
    assert yearly * period * base == pct * 365.0 * SECONDS_PER_DAY * base;
    assert pct * 365.0 * SECONDS_PER_DAY * base == 365.0 * 86400.0 * (pct * base);
  }

  lemma AverageTimes(days: real, n: real)
    requires 0.0 < n
    ensures Times(days * SECONDS_PER_DAY / n / SECONDS_PER_DAY, n) == days
  {
    var x := days * SECONDS_PER_DAY / n;
    DivMul(days * SECONDS_PER_DAY, n);
    DivMul(x, SECONDS_PER_DAY);
    assert x / SECONDS_PER_DAY * n * SECONDS_PER_DAY == x * n;
  }

  lemma SecondsCompare(start: int, now: int)
    ensures Seconds(start, now) == (now - start) as real / 1000000.0
    ensures 1.0 <= Seconds(start, now) <==> 1000000 <= now - start
  {
    DivMul((now - start) as real, MICROSECONDS);
  }

  // Without a positive base there is no return, and the period counts as a second if it is shorter.
  lemma FiguresWithoutBase(taken: seq<Position>, budget: Option<real>, peak: real, realized: real, start: int, now: int)
    requires taken != []
    ensures var period := PeriodSeconds(start, now);
      var f := FiguresOf(taken, budget, peak, realized, period);
      && (peak <= 0.0 ==> f.returnOnPeakPct == 0.0)
      && (f.returnOnBudgetPct.Some? <==> budget.Some? && budget.value > 0.0)
      && ((if budget.Some? then budget.value else peak) <= 0.0 ==> f.annualizedPct == 0.0)
      && period == (if 1000000 <= now - start then (now - start) as real / 1000000.0 else 1.0)
  {
    SecondsCompare(start, now);
    hide Sum, Wins;
  }

  // With nothing taken all figures are zero, no position is open and nothing is listed.
  lemma EmptyIsZero(now: int, nCandidates: nat, nDedup: nat, nBudget: nat)
    ensures var r := EmptyReport(now, nCandidates, nDedup, nBudget);
      && r.series == [] && r.rows == [] && r.summary.start == now
      && r.summary.peak == r.summary.avgCapital == r.summary.efficiencyPct == 0.0
      && r.summary.realized == r.summary.unrealized == r.summary.totalFees == 0.0
      && r.summary.nTaken == r.summary.nOpen == 0
      && (r.summary.nCandidates, r.summary.nSkippedDedup, r.summary.nSkippedBudget) == (nCandidates, nDedup, nBudget)
      && r.summary.figures.returnOnPeakPct == r.summary.figures.annualizedPct == 0.0
      && r.summary.figures.returnOnBudgetPct == None
      && r.summary.figures.winRatePct == r.summary.figures.avgHoldDays == 0.0
  {}

  // What the figures mean, in products: returns on what they are taken on, the yearly one over the period,
  // the win rate over the number of positions, the average over their days.
  lemma FiguresMean(taken: seq<Position>, budget: Option<real>, peak: real, realized: real, period: real)
    requires taken != [] && 0.0 < period && 0.0 < peak && (budget.Some? ==> 0.0 < budget.value)
    ensures var f := FiguresOf(taken, budget, peak, realized, period);
      var base := if budget.Some? then budget.value else peak;
      && Times(f.returnOnPeakPct, peak) == 100.0 * realized
      && (f.returnOnBudgetPct.Some? <==> budget.Some?)
      && (budget.Some? ==> Times(f.returnOnBudgetPct.value, budget.value) == 100.0 * realized)
      && Times(Times(f.annualizedPct, period), base) == 100.0 * 365.0 * 86400.0 * realized
      && Times(f.winRatePct, |taken| as real) == 100.0 * Wins(taken) as real
      && Times(f.avgHoldDays, |taken| as real) == Sum(taken, DaysHeld)
  {
    var n := |taken| as real;
    var base := if budget.Some? then budget.value else peak;
    PercentTimes(realized, peak);
    PercentTimes(realized, base);
    YearTimes(PercentOf(realized, base), period, base);
    PercentTimes(Wins(taken) as real, n);
    HoldsAdd(taken);
    AverageTimes(Sum(taken, DaysHeld), n);
    hide Sum, Wins;
  }

  lemma ReturnsAgree(taken: seq<Position>, budget: real, peak: real, realized: real, period: real)
    requires taken != [] && 0.0 < peak <= budget
    ensures var f := FiguresOf(taken, Some(budget), peak, realized, period);
      && f.returnOnBudgetPct.Some?
      && (0.0 <= realized ==> 0.0 <= f.returnOnBudgetPct.value <= f.returnOnPeakPct)
      && (realized <= 0.0 ==> f.returnOnPeakPct <= f.returnOnBudgetPct.value <= 0.0)
  {
    LargerBase(realized, peak, budget);
    hide PercentOf, Wins, Sum;
  }

  // The budget is at least the peak, so it is the more cautious base; the win rate is a percentage, and
  // full exactly when every position taken wins.
  lemma FiguresAgree(positions: seq<Position>, budget: Option<real>, dedup: bool, now: int, period: real)
    requires AllWellFormed(positions) && EnteredBy(positions, Some(now))
    requires Taken(positions, budget, dedup) != [] && (budget.Some? ==> 0.0 <= budget.value)
    ensures var taken := Taken(positions, budget, dedup);
      var curve := CurveOf(taken, now);
      var f := FiguresOf(taken, budget, curve.peak, curve.realized, period);
      && (budget.Some? ==>
            && 0.0 < curve.peak <= budget.value && f.returnOnBudgetPct.Some?
            && (0.0 <= curve.realized ==> 0.0 <= f.returnOnBudgetPct.value <= f.returnOnPeakPct)
            && (curve.realized <= 0.0 ==> f.returnOnPeakPct <= f.returnOnBudgetPct.value <= 0.0))
      && 0.0 <= f.winRatePct <= 100.0 && 0.0 < f.avgHoldDays
      && (f.winRatePct == 100.0 <==> forall p :: p in taken ==> p.profit > 0.0)
  {
    var taken := Taken(positions, budget, dedup);
    var curve := CurveOf(taken, now);
    TakenFacts(positions, budget, dedup, now);
    hide Sorted, Admit, Taken, FiguresOf, IsPeakCapital, Peak, Area, Series, Events, TotalArea;
    PeakIsExact(taken, Some(now));
    PeakIsPositive(taken, curve.peak);
    RatesAgree(taken, budget, curve.peak, curve.realized, period);
    if budget.Some? {
      PeakWithinBudget(positions, budget.value, dedup, curve.peak, now);
      ReturnsAgree(taken, budget.value, curve.peak, curve.realized, period);
    }
  }

  lemma {:induction false} ProfitSplits(taken: seq<Position>, now: int)
    ensures RealizedBy(taken, now) + Sum(OpenAt(taken, now), Profit) == Sum(taken, Profit)
  {
    if taken != [] {
      ProfitSplits(Front(taken), now);
      SumOfExtension(OpenAt(Front(taken), now), Last(taken), Profit);
      assert OpenAt(Front(taken), now) + [] == OpenAt(Front(taken), now);
    }
  }

  // Pair counts add up to n_taken, pair profits to realised plus unrealised profit.
  lemma BreakdownConserves(positions: seq<Position>, budget: Option<real>, dedup: bool, now: int)
    requires AllWellFormed(positions) && EnteredBy(positions, Some(now))
    requires Taken(positions, budget, dedup) != []
    ensures var taken := Taken(positions, budget, dedup);
      var rows := Ranked(PairRows(taken));
      && RowCounts(rows) == |taken|
      && RowProfits(rows) == CurveOf(taken, now).realized + Sum(OpenAt(taken, now), Profit)
  {
    var taken := Taken(positions, budget, dedup);
    TakenFacts(positions, budget, dedup, now);
    RowsConserve(taken);
    SeriesIsExact(taken, now);
    ProfitSplits(taken, now);
    hide CurveOf, Ranked, PairRows, Sum, OpenAt;
  }
}

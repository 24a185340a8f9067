// Trades as the database records them, and the risk gates computed from them
// (backend/src/option_arb/db/models.py, backend/src/option_arb/services/limits.py).
module RiskLimits {
  import opened OptionEconomics
  import opened Orders
  import opened StableSorting
  import opened TradeSizing
  import opened Wrappers

  const DAY := 86400000000 // microseconds

  datatype TradeStatus = Placing | Leg1Filled | Leg2Filled | Filled | Hedging | Hedged | Stuck | Failed

  datatype OrderKind = IocLimit | MarketOut

  // Zero fills are stored as nulls.
  datatype OrderRow = OrderRow(
    kind: OrderKind,
    side: Side,
    requestedPrice: real,
    requestedSize: real,
    status: OrderStatus,
    filledSize: Option<real>,
    filledPrice: Option<real>)

  // What the trade was authorised on: the verified figures, which the opening transaction stores on the
  // opportunity, and the contract they were priced as, which holds both taker fee rates.
  datatype Terms = Terms(walked: WalkedTrade, contract: Contract)

  // A trade row together with its terms and its order rows, in creation order.
  datatype Trade = Trade(
    oppId: nat,
    openedAt: int,
    terms: Terms,
    status: TradeStatus,
    requestedSize: real,
    closed: bool,
    netPnl: Option<real>,
    orders: seq<OrderRow>)

  datatype Limits = Limits(maxPositionsOpen: int, maxDailyLoss: real)

  predicate IsActive(t: Trade) {
    t.status in {TradeStatus.Placing, TradeStatus.Leg1Filled, TradeStatus.Leg2Filled, TradeStatus.Hedging}
  }

  function ActiveCount(trades: seq<Trade>): nat {
    if trades == [] then 0 else ActiveCount(Front(trades)) + if IsActive(Last(trades)) then 1 else 0
  }

  // A null counts for nothing.
  function Pnl(t: Trade): real {
    if t.netPnl.Some? then t.netPnl.value else 0.0
  }

  function DayOf(time: int): int {
    time / DAY
  }

  function Midnight(now: int): int {
    DayOf(now) * DAY
  }

  function PnlSince(since: int): Trade -> real {
    (t: Trade) => if t.openedAt >= since then Pnl(t) else 0.0
  }

  function PnlOn(day: int): Trade -> real {
    (t: Trade) => if DayOf(t.openedAt) == day then Pnl(t) else 0.0
  }

  // Realised profit of the trades opened on one day.
  function DayPnl(trades: seq<Trade>, day: int): real {
    Sum(trades, PnlOn(day))
  }

  function KillReason(killFile: bool, limits: Limits, trades: seq<Trade>, now: int): Option<Rejection> {
    var active, dailyPnl := ActiveCount(trades), Sum(trades, PnlSince(Midnight(now)));
    if killFile then Some(KillSwitchFile)
    else if active >= limits.maxPositionsOpen then Some(MaxPositionsOpen(active))
    else if dailyPnl <= -limits.maxDailyLoss then Some(MaxDailyLoss(dailyPnl))
    else None
  }

  // Trading goes on exactly when no limit is reached; the reason is the first of file, positions and loss.
  lemma KillReasonIff(killFile: bool, limits: Limits, trades: seq<Trade>, now: int)
    ensures var r, active := KillReason(killFile, limits, trades, now), ActiveCount(trades);
      var lost := Sum(trades, PnlSince(Midnight(now))) + limits.maxDailyLoss <= 0.0;
      && (r.None? <==> !killFile && active < limits.maxPositionsOpen && !lost)
      && (r == Some(KillSwitchFile) <==> killFile)
      && (r == Some(MaxPositionsOpen(active)) <==> !killFile && limits.maxPositionsOpen <= active)
      && (r.Some? && r.value.MaxDailyLoss? <==> !killFile && active < limits.maxPositionsOpen && lost)
  {}

  // A day has 24 hours of 60 minutes of 60 seconds, and midnight starts it.
  lemma DayStarts(now: int)
    ensures Midnight(now) <= now < Midnight(now) + 24 * 60 * 60 * 1000000
    ensures Midnight(now) % (24 * 60 * 60 * 1000000) == 0
  {}

  // Trades without a recorded profit count for nothing, and every other trade for what is recorded.
  lemma {:induction false} OnlyRecordedCounts(trades: seq<Trade>, day: int)
    ensures (forall i :: 0 <= i < |trades| ==> trades[i].netPnl.None?) ==> DayPnl(trades, day) == 0.0
    ensures trades != [] && Last(trades).netPnl.Some? && DayOf(Last(trades).openedAt) == day ==>
      DayPnl(trades, day) == DayPnl(Front(trades), day) + Last(trades).netPnl.value
  {
    if trades != [] {
      OnlyRecordedCounts(Front(trades), day);
      assert Last(trades) == trades[|trades| - 1];
    }
  }

  predicate OpenedBy(trades: seq<Trade>, clock: int) {
    forall i :: 0 <= i < |trades| ==> trades[i].openedAt <= clock
  }

  lemma SameDay(t: int, now: int)
    requires t <= now
    ensures Midnight(now) <= t <==> DayOf(t) == DayOf(now)
  {
    assert now == DAY * DayOf(now) + now % DAY && t == DAY * DayOf(t) + t % DAY;
  }

  // The counter, which sums from midnight on, is the profit of the current day.
  lemma CounterIsDayPnl(trades: seq<Trade>, now: int)
    requires OpenedBy(trades, now)
    ensures Sum(trades, PnlSince(Midnight(now))) == DayPnl(trades, DayOf(now))
  {
    forall i | 0 <= i < |trades|
      ensures PnlSince(Midnight(now))(trades[i]) == PnlOn(DayOf(now))(trades[i])
    {
      SameDay(trades[i].openedAt, now);
    }
    SumsAgree(trades, PnlSince(Midnight(now)), PnlOn(DayOf(now)));
  }

  // What the trades before number i had made on its day.
  function PnlBefore(trades: seq<Trade>, i: nat): real
    requires i < |trades|
  {
    DayPnl(trades[..i], DayOf(trades[i].openedAt))
  }

  // Every trade was opened while its day's loss was still below the limit.
  ghost predicate OpenedWithinLoss(trades: seq<Trade>, maxDailyLoss: real) {
    forall i :: 0 <= i < |trades| ==> PnlBefore(trades, i) > -maxDailyLoss
  }

  lemma OpeningKeepsLoss(trades: seq<Trade>, t: Trade, maxDailyLoss: real)
    requires OpenedWithinLoss(trades, maxDailyLoss)
    requires DayPnl(trades, DayOf(t.openedAt)) > -maxDailyLoss
    ensures OpenedWithinLoss(trades + [t], maxDailyLoss)
  {
    var after := trades + [t];
    forall i | 0 <= i < |after|
      ensures PnlBefore(after, i) > -maxDailyLoss
    {
      if i < |trades| {
        assert after[..i] == trades[..i] && PnlBefore(trades, i) > -maxDailyLoss;
      } else {
        assert after[..i] == trades;
      }
    }
  }

  // Changing the newest trade leaves what came before it alone.
  lemma UpdatingNewestKeepsLoss(trades: seq<Trade>, t: Trade, maxDailyLoss: real)
    requires trades != [] && OpenedWithinLoss(trades, maxDailyLoss)
    requires t.openedAt == Last(trades).openedAt
    ensures OpenedWithinLoss(Front(trades) + [t], maxDailyLoss)
  {
    var after := Front(trades) + [t];
    forall i | 0 <= i < |after|
      ensures PnlBefore(after, i) > -maxDailyLoss
    {
      assert after[..i] == trades[..i] && PnlBefore(trades, i) > -maxDailyLoss;
    }
  }

  lemma DaysAscend(a: int, b: int)
    requires a <= b
    ensures DayOf(a) <= DayOf(b)
  {}

  // A check at `checkedAt` still holds when the trade is opened later, even past midnight.
  lemma CheckSurvivesUntilOpening(trades: seq<Trade>, limits: Limits, checkedAt: int, openedAt: int)
    requires OpenedBy(trades, checkedAt) && checkedAt <= openedAt
    requires KillReason(false, limits, trades, checkedAt).None? && limits.maxDailyLoss > 0.0
    ensures DayPnl(trades, DayOf(openedAt)) > -limits.maxDailyLoss
  {
    CounterIsDayPnl(trades, checkedAt);
    if DayOf(checkedAt) != DayOf(openedAt) {
      forall i | 0 <= i < |trades|
        ensures PnlOn(DayOf(openedAt))(trades[i]) == 0.0
      {
        DaysAscend(trades[i].openedAt, checkedAt);
        DaysAscend(checkedAt, openedAt);
      }
      SumZero(trades, PnlOn(DayOf(openedAt)));
    }
  }

  // The loss of a day exceeds the limit by less than what the day's last trade lost.
  lemma {:induction false} DayLossOvershoot(trades: seq<Trade>, limits: Limits, day: int)
    requires OpenedWithinLoss(trades, limits.maxDailyLoss) && limits.maxDailyLoss > 0.0
    ensures DayPnl(trades, day) > -limits.maxDailyLoss ||
      exists i :: 0 <= i < |trades| && DayOf(trades[i].openedAt) == day
        && (forall j :: i < j < |trades| ==> DayOf(trades[j].openedAt) != day)
        && DayPnl(trades, day) > -limits.maxDailyLoss + Pnl(trades[i])
  {
    if trades != [] {
      var n := |trades| - 1;
      if DayOf(trades[n].openedAt) == day {
        assert PnlBefore(trades, n) > -limits.maxDailyLoss;
        assert trades[..n] == Front(trades);
      } else {
        forall i | 0 <= i < n
          ensures PnlBefore(Front(trades), i) > -limits.maxDailyLoss
        {
          assert Front(trades)[..i] == trades[..i] && PnlBefore(trades, i) > -limits.maxDailyLoss;
        }
        DayLossOvershoot(Front(trades), limits, day);
        if DayPnl(Front(trades), day) <= -limits.maxDailyLoss {
          var i :| 0 <= i < n && DayOf(Front(trades)[i].openedAt) == day
            && (forall j :: i < j < n ==> DayOf(Front(trades)[j].openedAt) != day)
            && DayPnl(Front(trades), day) > -limits.maxDailyLoss + Pnl(Front(trades)[i]);
          forall j | i < j < |trades|
            ensures DayOf(trades[j].openedAt) != day
          {
            assert j < n ==> trades[j] == Front(trades)[j];
          }
          assert trades[i] == Front(trades)[i];
        }
      }
    }
  }
}

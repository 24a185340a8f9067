// What the executor's tables say about one another, at every commit
// (backend/src/option_arb/services/executor.py, backend/src/option_arb/db/models.py).
//
// Opportunities, trades and orders are rows; `Fills` is what the venues really executed for a
// trade, which the rows only know through the venues' answers.
module TradeLedger {
  import opened Orders
  import opened RealArithmetic
  import opened RiskLimits
  import opened Settlement
  import opened StableSorting
  import opened Wrappers

  datatype OppStatus = Pending | Approved | Rejected | Executed | Expired

  datatype Opportunity = Opportunity(status: OppStatus, reason: Option<Rejection>)

  datatype Fills = Fills(buy: real, sell: real, out: real, honest: bool)

  // A venue either answers or raises; what it really executed is its own affair.
  datatype VenueAnswer = VenueAnswer(reply: Option<OrderResult>, executed: real)

  // An exception counts as a rejection.
  function ResultOf(a: VenueAnswer): OrderResult {
    if a.reply.Some? then a.reply.value else OrderResult(OrderStatus.Rejected, 0.0, 0.0)
  }

  // All that is asked of any venue: nothing beyond the order's size is filled or reported.
  predicate WithinOrder(a: VenueAnswer, size: real) {
    && 0.0 <= a.executed <= size
    && (a.reply.Some? ==> 0.0 <= a.reply.value.filledSize <= size && a.reply.value.status != OrderStatus.Placing)
  }

  // The answer tells what was executed: a fill of that size, or no fill when nothing was.
  predicate Honest(a: VenueAnswer) {
    a.executed == if LegOk(ResultOf(a)) then ResultOf(a).filledSize else 0.0
  }

  // ---------------------------------------------------------------------------------------------
  // Order rows
  // ---------------------------------------------------------------------------------------------

  function NewRow(kind: OrderKind, req: OrderRequest): OrderRow {
    OrderRow(kind, req.side, req.limitPrice, req.size, OrderStatus.Placing, None, None)
  }

  function NonZero(x: real): Option<real> {
    if x == 0.0 then None else Some(x)
  }

  function Answered(row: OrderRow, res: OrderResult): OrderRow {
    row.(status := res.status, filledSize := NonZero(res.filledSize), filledPrice := NonZero(res.filledPrice))
  }

  function OrZero(x: Option<real>): real {
    if x.Some? then x.value else 0.0
  }

  // What a row says its venue answered.
  function Recorded(row: OrderRow): OrderResult {
    OrderResult(row.status, OrZero(row.filledSize), OrZero(row.filledPrice))
  }

  // Profit of closing a single leg; fees are not deducted.
  function HedgePnl(buyFilled: bool, leg: OrderResult, out: OrderResult): real {
    var gain := Times(out.filledPrice - leg.filledPrice, out.filledSize);
    if buyFilled then gain else -gain
  }

  // An exception leaves a rejected row without a fill.
  lemma ExceptionRejects(row: OrderRow, executed: real)
    ensures var answered := Answered(row, ResultOf(VenueAnswer(None, executed)));
      && answered.status == OrderStatus.Rejected && answered.filledSize.None? && answered.filledPrice.None?
      && answered.kind == row.kind && answered.side == row.side
      && answered.requestedPrice == row.requestedPrice && answered.requestedSize == row.requestedSize
  {}

  predicate Updated(row: OrderRow) {
    row.status != OrderStatus.Placing
  }

  predicate RowOk(row: OrderRow) {
    (row.status == OrderStatus.Filled || row.status == OrderStatus.Partial)
    && row.filledSize.Some? && row.filledSize.value > 0.0
  }

  function RowFilled(row: OrderRow): real {
    if RowOk(row) then row.filledSize.value else 0.0
  }

  // ---------------------------------------------------------------------------------------------
  // One trade
  // ---------------------------------------------------------------------------------------------

  // The row asks for what the order says.
  predicate Asks(row: OrderRow, kind: OrderKind, req: OrderRequest) {
    && row.kind == kind && row.side == req.side
    && row.requestedPrice == req.limitPrice && row.requestedSize == req.size
  }

  // Two IOC limits first, the buy and the sell that were authorised; at most one market-out after
  // them, only when exactly one leg filled, undoing that leg in full.
  predicate OrdersOk(t: Trade) {
    var o := t.orders;
    && |o| <= 3
    && t.requestedSize == t.terms.walked.economics.tradeableSize && Sound(t.terms.walked, t.terms.contract)
    && (forall k :: 0 <= k < |o| ==> 0.0 <= RowFilled(o[k]) <= o[k].requestedSize)
    && (|o| >= 1 ==> Asks(o[0], IocLimit, BuyOrder(t.terms.walked)))
    && (|o| >= 2 ==> Asks(o[1], IocLimit, SellOrder(t.terms.walked)))
    && (|o| == 3 ==>
      && o[2].kind == MarketOut
      && RowOk(o[0]) != RowOk(o[1])
      && o[2].side == (if RowOk(o[0]) then Sell else Buy)
      && o[2].requestedSize == RowFilled(o[0]) + RowFilled(o[1]))
  }

  predicate Answers(t: Trade, n: nat) {
    |t.orders| >= n && forall k :: 0 <= k < n ==> Updated(t.orders[k])
  }

  predicate OneLegFilled(t: Trade) {
    Answers(t, 2) && RowOk(t.orders[0]) != RowOk(t.orders[1])
  }

  // The profit that the two leg rows of a trade amount to.
  function FilledPnl(t: Trade): real
    requires |t.orders| >= 2
  {
    NetPnl(Recorded(t.orders[0]), Recorded(t.orders[1]), t.terms.contract.buyFee, t.terms.contract.sellFee)
  }

  // The row of the leg that filled.
  function FilledLeg(t: Trade): OrderRow
    requires |t.orders| >= 2
  {
    if RowOk(t.orders[0]) then t.orders[0] else t.orders[1]
  }

  // And what the filled leg and the market-out do.
  function HedgedPnl(t: Trade): real
    requires |t.orders| == 3
  {
    HedgePnl(RowOk(t.orders[0]), Recorded(FilledLeg(t)), Recorded(t.orders[2]))
  }

  predicate StatusOk(t: Trade) {
    match t.status
    case Placing => |t.orders| <= 2 && !t.closed && t.netPnl.None?
    case Filled =>
      |t.orders| == 2 && Answers(t, 2) && RowOk(t.orders[0]) && RowOk(t.orders[1]) && t.closed
      && t.netPnl == Some(FilledPnl(t))
    case Failed =>
      |t.orders| == 2 && Answers(t, 2) && !RowOk(t.orders[0]) && !RowOk(t.orders[1]) && t.closed && t.netPnl.None?
    case Hedging => OneLegFilled(t) && !t.closed && t.netPnl.None?
    case Hedged =>
      |t.orders| == 3 && Answers(t, 3) && OneLegFilled(t) && RowOk(t.orders[2]) && t.closed
      && t.netPnl == Some(HedgedPnl(t))
    case Stuck =>
      OneLegFilled(t) && !t.closed && t.netPnl.None? && (|t.orders| == 3 ==> Answers(t, 3) && !RowOk(t.orders[2]))
    case Leg1Filled => false
    case Leg2Filled => false
  }

  // The true fills are the recorded ones.
  predicate Tells(t: Trade, f: Fills) {
    var o := t.orders;
    && (|o| >= 1 && Updated(o[0]) ==> f.buy == RowFilled(o[0]))
    && (|o| >= 2 && Updated(o[1]) ==> f.sell == RowFilled(o[1]))
    && (|o| == 3 && Updated(o[2]) ==> f.out == RowFilled(o[2]))
  }

  // The true fills stay within the orders sent.  The venues were honest only if the rows tell the true
  // fills, and exactly then once all orders have been answered.
  predicate FillsOk(t: Trade, f: Fills) {
    var o := t.orders;
    && 0.0 <= f.buy <= t.requestedSize && 0.0 <= f.sell <= t.requestedSize
    && (|o| < 2 ==> f.buy == 0.0 && f.sell == 0.0)
    && (|o| < 3 ==> f.out == 0.0)
    && (|o| == 3 ==> 0.0 <= f.out <= o[2].requestedSize)
    && (f.honest ==> Tells(t, f))
    && (|o| >= 2 && Answers(t, |o|) ==> (f.honest <==> Tells(t, f)))
  }

  predicate TradeOk(t: Trade, f: Fills) {
    OrdersOk(t) && StatusOk(t) && FillsOk(t, f)
  }

  // ---------------------------------------------------------------------------------------------
  // All rows
  // ---------------------------------------------------------------------------------------------

  predicate Linked(t: Trade, opp: Opportunity) {
    match t.status
    case Filled => opp.status == Executed
    case Hedged => opp.status == Executed
    case Failed => opp.status == OppStatus.Rejected && opp.reason == Some(BothLegsFailed)
    case _ => opp.status == Approved
  }

  predicate OppOk(opp: Opportunity) {
    opp.reason.Some? <==> opp.status == OppStatus.Rejected
  }

  predicate HasTrade(trades: seq<Trade>, id: nat) {
    exists i :: 0 <= i < |trades| && trades[i].oppId == id
  }

  // An opportunity that was acted on has a trade.
  predicate ActedOn(opp: Opportunity) {
    opp.status == Approved || opp.status == Executed || opp.reason == Some(BothLegsFailed)
  }

  predicate RowsOk(opps: map<nat, Opportunity>, trades: seq<Trade>, fills: seq<Fills>) {
    && |fills| == |trades|
    && (forall i :: 0 <= i < |trades| ==>
      TradeOk(trades[i], fills[i]) && trades[i].oppId in opps && Linked(trades[i], opps[trades[i].oppId]))
    && (forall i, j :: 0 <= i < j < |trades| ==> trades[i].oppId != trades[j].oppId)
    && (forall id :: id in opps ==> OppOk(opps[id]) && (ActedOn(opps[id]) ==> HasTrade(trades, id)))
  }

  ghost predicate RiskOk(trades: seq<Trade>, limits: Limits, clock: int) {
    && OpenedBy(trades, clock)
    && (ActiveCount(trades) == 0 || ActiveCount(trades) <= limits.maxPositionsOpen)
    && (limits.maxDailyLoss > 0.0 ==> OpenedWithinLoss(trades, limits.maxDailyLoss))
  }

  // ---------------------------------------------------------------------------------------------
  // Transactions keep the rows consistent
  // ---------------------------------------------------------------------------------------------

  lemma DetectKeepsRows(opps: map<nat, Opportunity>, trades: seq<Trade>, fills: seq<Fills>, id: nat)
    requires RowsOk(opps, trades, fills) && id !in opps
    ensures RowsOk(opps[id := Opportunity(Pending, None)], trades, fills)
  {
    hide TradeOk;
    forall i | 0 <= i < |trades|
      ensures trades[i].oppId != id
    {
      assert trades[i].oppId in opps;
    }
  }

  lemma RejectKeepsRows(opps: map<nat, Opportunity>, trades: seq<Trade>, fills: seq<Fills>, id: nat, reason: Rejection)
    requires RowsOk(opps, trades, fills)
    requires id in opps && opps[id].status == Pending && reason != BothLegsFailed
    ensures RowsOk(opps[id := Opportunity(OppStatus.Rejected, Some(reason))], trades, fills)
  {
    hide TradeOk;
    forall i | 0 <= i < |trades|
      ensures trades[i].oppId != id
    {
      assert Linked(trades[i], opps[trades[i].oppId]);
    }
  }

  lemma OpenKeepsRows(opps: map<nat, Opportunity>, trades: seq<Trade>, fills: seq<Fills>, t: Trade, f: Fills)
    requires RowsOk(opps, trades, fills)
    requires t.oppId in opps && opps[t.oppId].status == Pending
    requires TradeOk(t, f) && t.status == TradeStatus.Placing
    ensures RowsOk(opps[t.oppId := Opportunity(Approved, None)], trades + [t], fills + [f])
  {
    hide TradeOk;
    var opps', trades' := opps[t.oppId := Opportunity(Approved, None)], trades + [t];
    forall i | 0 <= i < |trades|
      ensures trades[i].oppId != t.oppId
    {
      assert Linked(trades[i], opps[trades[i].oppId]);
    }
    assert trades'[|trades|].oppId == t.oppId;
    forall id | id in opps' && ActedOn(opps'[id])
      ensures HasTrade(trades', id)
    {
      if id != t.oppId {
        var i :| 0 <= i < |trades| && trades[i].oppId == id;
        assert trades'[i].oppId == id;
      }
    }
  }

  // The newest trade and its opportunity change together.
  lemma UpdateKeepsRows(opps: map<nat, Opportunity>, trades: seq<Trade>, fills: seq<Fills>, t: Trade, f: Fills,
                        opp: Opportunity)
    requires RowsOk(opps, trades, fills) && trades != []
    requires t.oppId == Last(trades).oppId
    requires TradeOk(t, f) && Linked(t, opp) && OppOk(opp)
    ensures RowsOk(opps[t.oppId := opp], Front(trades) + [t], Front(fills) + [f])
  {
    hide TradeOk;
    var opps', trades' := opps[t.oppId := opp], Front(trades) + [t];
    forall i | 0 <= i < |trades| - 1
      ensures trades[i].oppId != t.oppId
    {}
    assert trades'[|trades| - 1].oppId == t.oppId;
    forall id | id in opps' && ActedOn(opps'[id])
      ensures HasTrade(trades', id)
    {
      if id != t.oppId {
        var i :| 0 <= i < |trades| && trades[i].oppId == id;
        assert i < |trades| - 1 && trades'[i].oppId == id;
      }
    }
  }

  lemma ActiveOfExtension(trades: seq<Trade>, t: Trade)
    ensures ActiveCount(trades + [t]) == ActiveCount(trades) + if IsActive(t) then 1 else 0
  {
    assert Front(trades + [t]) == trades;
  }

  lemma OpenKeepsRisk(trades: seq<Trade>, limits: Limits, clock: int, checkedAt: int, t: Trade)
    requires RiskOk(trades, limits, clock) && clock <= checkedAt <= t.openedAt
    requires KillReason(false, limits, trades, checkedAt).None?
    ensures RiskOk(trades + [t], limits, t.openedAt)
  {
    ActiveOfExtension(trades, t);
    if limits.maxDailyLoss > 0.0 {
      CheckSurvivesUntilOpening(trades, limits, checkedAt, t.openedAt);
      OpeningKeepsLoss(trades, t, limits.maxDailyLoss);
    }
  }

  lemma UpdateKeepsRisk(trades: seq<Trade>, limits: Limits, clock: int, t: Trade)
    requires RiskOk(trades, limits, clock) && trades != []
    requires t.openedAt == Last(trades).openedAt && (IsActive(t) ==> IsActive(Last(trades)))
    ensures RiskOk(Front(trades) + [t], limits, clock)
  {
    ActiveOfExtension(Front(trades), t);
    if limits.maxDailyLoss > 0.0 {
      UpdatingNewestKeepsLoss(trades, t, limits.maxDailyLoss);
    }
  }

  // ---------------------------------------------------------------------------------------------
  // What consistent rows mean
  // ---------------------------------------------------------------------------------------------

  // Contracts held on the buying and on the selling venue.
  function BuyVenuePosition(t: Trade, f: Fills): real {
    if |t.orders| == 3 && t.orders[2].side == Sell then f.buy - f.out else f.buy
  }

  function SellVenuePosition(t: Trade, f: Fills): real {
    if |t.orders| == 3 && t.orders[2].side == Buy then f.out - f.sell else -f.sell
  }

  function Exposure(t: Trade, f: Fills): real {
    BuyVenuePosition(t, f) + SellVenuePosition(t, f)
  }

  predicate Terminal(t: Trade) {
    t.status in {TradeStatus.Filled, TradeStatus.Failed, TradeStatus.Hedged, TradeStatus.Stuck}
  }

  // Residual exposure of a finished trade: the difference of the fills when both legs filled, the
  // part of the filled leg that the market-out did not undo when it was hedged, the whole filled
  // leg when it is stuck, and nothing on either venue when it failed.
  lemma TerminalExposure(t: Trade, f: Fills)
    requires TradeOk(t, f) && f.honest && Terminal(t)
    ensures t.status == TradeStatus.Filled ==> Exposure(t, f) == RowFilled(t.orders[0]) - RowFilled(t.orders[1])
    ensures t.status == TradeStatus.Failed ==> BuyVenuePosition(t, f) == 0.0 && SellVenuePosition(t, f) == 0.0
    ensures t.status == TradeStatus.Hedged && RowOk(t.orders[0]) ==>
      0.0 <= Exposure(t, f) == RowFilled(t.orders[0]) - RowFilled(t.orders[2]) < RowFilled(t.orders[0])
    ensures t.status == TradeStatus.Hedged && RowOk(t.orders[1]) ==>
      0.0 <= -Exposure(t, f) == RowFilled(t.orders[1]) - RowFilled(t.orders[2]) < RowFilled(t.orders[1])
    ensures t.status == TradeStatus.Stuck ==>
      Exposure(t, f) == RowFilled(t.orders[0]) - RowFilled(t.orders[1]) != 0.0
  {}

  // The fills the rows show.
  function RecordedFills(t: Trade): Fills
    requires |t.orders| >= 2
  {
    Fills(RowFilled(t.orders[0]), RowFilled(t.orders[1]), if |t.orders| >= 3 then RowFilled(t.orders[2]) else 0.0, true)
  }

  // Both positions and the market-out are what the rows show.
  predicate AsRecorded(t: Trade, f: Fills)
    requires |t.orders| >= 2
  {
    var r := RecordedFills(t);
    && BuyVenuePosition(t, f) == BuyVenuePosition(t, r)
    && SellVenuePosition(t, f) == SellVenuePosition(t, r)
    && f.out == r.out
  }

  // Both positions of a finished trade and its market-out are what the rows show exactly when the venues'
  // answers told the truth.
  lemma PositionsAreRecordedIffTold(t: Trade, f: Fills)
    requires TradeOk(t, f) && Terminal(t)
    ensures |t.orders| >= 2
    ensures AsRecorded(t, f) <==> f.honest
  {
    hide Sound, Asks, RowOk, RowFilled, Recorded, NetPnl;
  }

  // A failed trade holds nothing on either venue exactly when both venues' answers told the truth.
  lemma FailedIsFlatIffTold(t: Trade, f: Fills)
    requires TradeOk(t, f) && t.status == TradeStatus.Failed
    ensures BuyVenuePosition(t, f) == 0.0 && SellVenuePosition(t, f) == 0.0 <==> f.honest
  {
    hide Sound, Asks;
  }

  // The guarantee for every FILLED row there ever is: if both rows record full fills within the limits,
  // the profit on record is at least the verified one.
  lemma FilledRowMeetsGuarantee(t: Trade, f: Fills)
    requires TradeOk(t, f) && t.status == TradeStatus.Filled
    requires HonoursOrder(BuyOrder(t.terms.walked), Recorded(t.orders[0]))
    requires HonoursOrder(SellOrder(t.terms.walked), Recorded(t.orders[1]))
    requires t.orders[0].status == OrderStatus.Filled && t.orders[1].status == OrderStatus.Filled
    ensures t.netPnl.Some? && t.netPnl.value >= t.terms.walked.economics.netProfit > 0.0
  {
    hide Sound, HonoursOrder, NetPnl, FillsOk;
    FullFillsEarnVerifiedProfit(t.terms.walked, t.terms.contract, Recorded(t.orders[0]), Recorded(t.orders[1]));
  }

  // The contracts of the filled leg that the market-out closed.
  function ClosedLeg(t: Trade): OrderResult
    requires |t.orders| == 3
  {
    Recorded(FilledLeg(t)).(filledSize := Recorded(t.orders[2]).filledSize)
  }

  // Fee rate of the venue they were bought and sold on.
  function HedgeFee(t: Trade): real
    requires |t.orders| == 3
  {
    if RowOk(t.orders[0]) then t.terms.contract.buyFee else t.terms.contract.sellFee
  }

  // What closing them made, fees deducted.
  function ClosedPnl(t: Trade): real
    requires |t.orders| == 3
  {
    var leg, out, fee := ClosedLeg(t), Recorded(t.orders[2]), HedgeFee(t);
    if RowOk(t.orders[0]) then NetPnl(leg, out, fee, fee) else NetPnl(out, leg, fee, fee)
  }

  lemma HedgeGain(buyFilled: bool, leg: OrderResult, out: OrderResult, fee: real)
    requires leg.filledSize == out.filledSize
    ensures HedgePnl(buyFilled, leg, out) == TotalFees(leg, out, fee, fee)
      + if buyFilled then NetPnl(leg, out, fee, fee) else NetPnl(out, leg, fee, fee)
  {
    TimesSplit(out.filledPrice, leg.filledPrice, out.filledPrice - leg.filledPrice, out.filledSize);
    hide Times;
  }

  lemma NoFees(leg: OrderResult, out: OrderResult, fee: real)
    requires 0.0 <= fee && 0.0 <= leg.filledPrice && 0.0 <= out.filledPrice
    requires 0.0 <= leg.filledSize && 0.0 <= out.filledSize
    ensures 0.0 <= Times(Notional(leg), fee) && 0.0 <= Times(Notional(out), fee)
  {
    TimesMono(0.0, leg.filledPrice, leg.filledSize);
    TimesMono(0.0, out.filledPrice, out.filledSize);
    TimesMono(0.0, Notional(leg), fee);
    TimesMono(0.0, Notional(out), fee);
    TimesZero(fee);
    TimesZero(leg.filledSize);
    TimesZero(out.filledSize);
    hide Times;
  }

  lemma HedgedFacts(t: Trade, f: Fills)
    requires TradeOk(t, f) && t.status == TradeStatus.Hedged
    ensures |t.orders| == 3 && t.netPnl == Some(HedgedPnl(t)) && 0.0 <= HedgeFee(t)
    ensures 0.0 < Recorded(t.orders[2]).filledSize
  {
    hide NetPnl;
  }

  // The profit on record for a HEDGED trade leaves out both fees of closing the leg, so it is the true
  // one exactly when both are zero.
  lemma HedgedLeavesOutFees(t: Trade, f: Fills)
    requires TradeOk(t, f) && t.status == TradeStatus.Hedged
    requires 0.0 <= Recorded(FilledLeg(t)).filledPrice && 0.0 <= Recorded(t.orders[2]).filledPrice
    ensures |t.orders| == 3
    ensures var fee := if RowOk(t.orders[0]) then t.terms.contract.buyFee else t.terms.contract.sellFee;
      var entryFee := Times(Notional(ClosedLeg(t)), fee);
      var exitFee := Times(Notional(Recorded(t.orders[2])), fee);
      && t.netPnl == Some(ClosedPnl(t) + entryFee + exitFee)
      && ClosedPnl(t) <= t.netPnl.value
      && (t.netPnl.value == ClosedPnl(t) <==> entryFee == 0.0 && exitFee == 0.0)
  {
    HedgedFacts(t, f);
    var leg, out := ClosedLeg(t), Recorded(t.orders[2]);
    HedgeGain(RowOk(t.orders[0]), leg, out, HedgeFee(t));
    NoFees(leg, out, HedgeFee(t));
    hide TradeOk, RowOk, Times, Notional, NetPnl, Recorded;
  }

  // ---------------------------------------------------------------------------------------------
  // What the position limit bounds
  // ---------------------------------------------------------------------------------------------

  function UnclosedCount(trades: seq<Trade>): nat {
    if trades == [] then 0 else UnclosedCount(Front(trades)) + if Last(trades).closed then 0 else 1
  }

  function StuckCount(trades: seq<Trade>): nat {
    if trades == [] then 0 else StuckCount(Front(trades)) + if Last(trades).status == TradeStatus.Stuck then 1 else 0
  }

  lemma {:induction false} UnclosedAreActiveOrStuck(trades: seq<Trade>)
    requires forall i :: 0 <= i < |trades| ==> StatusOk(trades[i])
    ensures UnclosedCount(trades) == ActiveCount(trades) + StuckCount(trades)
  {
    if trades != [] {
      UnclosedAreActiveOrStuck(Front(trades));
      assert StatusOk(trades[|trades| - 1]);
    }
  }

  // The limit on open positions bounds the trades not yet closed, up to exactly the STUCK ones.
  lemma UnclosedWithinLimit(opps: map<nat, Opportunity>, trades: seq<Trade>, fills: seq<Fills>, limits: Limits, clock: int)
    requires RowsOk(opps, trades, fills) && RiskOk(trades, limits, clock)
    ensures UnclosedCount(trades) == ActiveCount(trades) + StuckCount(trades)
    ensures UnclosedCount(trades) - StuckCount(trades) <= if limits.maxPositionsOpen < 0 then 0 else limits.maxPositionsOpen
  {
    hide OpenedWithinLoss, OrdersOk, FillsOk, StatusOk, Linked;
    assert forall i :: 0 <= i < |trades| ==> TradeOk(trades[i], fills[i]);
    UnclosedAreActiveOrStuck(trades);
  }

  predicate AllOrNothing(t: Trade) {
    forall k :: 0 <= k < |t.orders| && RowOk(t.orders[k]) ==> RowFilled(t.orders[k]) == t.orders[k].requestedSize
  }

  // Under all-or-nothing fills a finished trade carries exposure exactly when it is stuck.
  lemma OnlyStuckIsExposed(t: Trade, f: Fills)
    requires TradeOk(t, f) && f.honest && Terminal(t) && AllOrNothing(t)
    ensures Exposure(t, f) != 0.0 <==> t.status == TradeStatus.Stuck
  {
    TerminalExposure(t, f);
  }

  predicate HasTradeIn(trades: seq<Trade>, id: nat, states: set<TradeStatus>) {
    exists i :: 0 <= i < |trades| && trades[i].oppId == id && trades[i].status in states
  }

  lemma NeverHalfFilled(t: Trade, f: Fills)
    requires TradeOk(t, f)
    ensures t.status != Leg1Filled && t.status != Leg2Filled
  {
    hide OrdersOk, FillsOk;
  }

  // At most one trade per opportunity; the statuses on both sides determine each other.
  lemma StatusesAgree(opps: map<nat, Opportunity>, trades: seq<Trade>, fills: seq<Fills>, id: nat)
    requires RowsOk(opps, trades, fills) && id in opps
    ensures forall i, j :: 0 <= i < |trades| && 0 <= j < |trades| && trades[i].oppId == id == trades[j].oppId ==> i == j
    ensures opps[id].status == Pending ==> !HasTrade(trades, id)
    ensures opps[id].status == Executed <==> HasTradeIn(trades, id, {TradeStatus.Filled, TradeStatus.Hedged})
    ensures opps[id].reason == Some(BothLegsFailed) <==> HasTradeIn(trades, id, {TradeStatus.Failed})
    ensures opps[id].status == Approved <==>
      HasTradeIn(trades, id, {TradeStatus.Placing, TradeStatus.Hedging, TradeStatus.Stuck})
  {
    hide TradeOk, StatusOk;
    forall i | 0 <= i < |trades| && trades[i].oppId == id
      ensures Linked(trades[i], opps[id]) && trades[i].status != Leg1Filled && trades[i].status != Leg2Filled
    {
      assert TradeOk(trades[i], fills[i]);
      NeverHalfFilled(trades[i], fills[i]);
    }
    if ActedOn(opps[id]) {
      var i :| 0 <= i < |trades| && trades[i].oppId == id;
      assert Linked(trades[i], opps[id]);
    }
  }
}

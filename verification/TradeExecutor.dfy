// The executor's state machine (backend/src/option_arb/services/executor.py).
//
// Every database transaction is one step and may fail, which ends the whole tick where it stands;
// `commitsLeft` says how many more will succeed before that.  Venues are arbitrary functions from
// orders to answers.
module TradeExecutor {
  import opened OptionEconomics
  import opened OrderBook
  import opened Orders
  import opened RealArithmetic
  import opened RiskLimits
  import opened Settlement
  import opened StableSorting
  import opened TradeLedger
  import opened TradeSizing
  import opened Wrappers

  type Venue = OrderRequest -> VenueAnswer

  ghost predicate Bounded(v: Venue) {
    forall req: OrderRequest :: req.size >= 0.0 ==> WithinOrder(v(req), req.size)
  }

  // Everything the outside world contributes to processing one opportunity.
  datatype World = World(
    killFile: bool,
    checkedAt: int,
    vettedAt: int,
    pricedAt: int,
    openedAt: int,
    buyEnabled: bool, // a venue without configuration counts as enabled
    sellEnabled: bool,
    venuesKnown: bool,
    instrumentsKnown: bool,
    booksFetched: bool, // both, within the time allowed
    buyBook: Book,
    sellBook: Book,
    buyInst: Instrument,
    sellInst: Instrument,
    expiry: int,
    asset: string, // the underlying, in upper case
    buyFunds: map<string, real>, // empty when they cannot be fetched
    sellFunds: map<string, real>,
    buyVenue: Venue,
    sellVenue: Venue,
    hedgeBook: Option<Book>, // None when the fetch fails
    hedgeVenue: Venue,
    commits: nat) // how many commits succeed before one raises

  predicate Plausible(w: World) {
    w.checkedAt <= w.openedAt
  }

  // Why an opportunity is turned down before its books are walked: the first reason that applies.
  function Blocked(w: World, maxDaysToExpiry: real): (reason: Option<Rejection>)
    ensures reason != Some(BothLegsFailed)
  {
    var days := DaysToExpiry(w.expiry, w.vettedAt);
    if days <= 0.0 then Some(ExpiryInvalid)
    else if days > maxDaysToExpiry then Some(ExpiryTooFar)
    else if !w.buyEnabled || !w.sellEnabled then Some(TradingDisabled)
    else if !w.venuesKnown then Some(UnknownExchange)
    else if !w.instrumentsKnown then Some(InstrumentMetadataMissing)
    else if !w.booksFetched then Some(StaleBook)
    else None
  }

  // What has to hold before an opportunity's books are walked, and what is recorded when it does not.
  lemma BlockedIff(w: World, maxDaysToExpiry: real)
    ensures var near := (w.expiry - w.vettedAt) as real <= maxDaysToExpiry * (24 * 60 * 60 * 1000000) as real;
      var inTime := w.vettedAt < w.expiry && near;
      var enabled := inTime && w.buyEnabled && w.sellEnabled;
      var r := Blocked(w, maxDaysToExpiry);
      && (r == Some(ExpiryInvalid) <==> w.expiry <= w.vettedAt)
      && (r == Some(ExpiryTooFar) <==> w.vettedAt < w.expiry && !near)
      && (r == Some(TradingDisabled) <==> inTime && !(w.buyEnabled && w.sellEnabled))
      && (r == Some(UnknownExchange) <==> enabled && !w.venuesKnown)
      && (r == Some(InstrumentMetadataMissing) <==> enabled && w.venuesKnown && !w.instrumentsKnown)
      && (r == Some(StaleBook) <==> enabled && w.venuesKnown && w.instrumentsKnown && !w.booksFetched)
      && (r == None <==> enabled && w.venuesKnown && w.instrumentsKnown && w.booksFetched)
  {
    DaysCompare(w.expiry, w.vettedAt, maxDaysToExpiry);
    hide DaysToExpiry;
  }

  function Held(funds: map<string, real>, asset: string): real {
    if asset in funds then funds[asset] else 0.0
  }

  // Dollars and the underlying at spot; unknown when neither is listed, or the underlying has no price.
  function AvailableFunds(funds: map<string, real>, asset: string, spot: Option<real>): Option<real> {
    if "USDC" !in funds && "USD" !in funds && asset !in funds then None
    else if Held(funds, asset) != 0.0 && spot.None? then None
    else
      var price := if spot.Some? then spot.value else 0.0;
      Some(Held(funds, "USDC") + Held(funds, "USD") + Times(Held(funds, asset), price))
  }

  // Funds are known exactly when one of the three assets is listed and any coins have a price; then they
  // are worth the dollars of both kinds and the coins at that price.
  lemma FundsAreWorth(funds: map<string, real>, asset: string, spot: Option<real>)
    ensures var coins := if asset in funds then funds[asset] else 0.0;
      var dollars := (if "USD" in funds then funds["USD"] else 0.0) + (if "USDC" in funds then funds["USDC"] else 0.0);
      var r := AvailableFunds(funds, asset, spot);
      && (r.Some? <==>
            ("USD" in funds || "USDC" in funds || asset in funds) && (coins != 0.0 ==> spot.Some?))
      && (r.Some? && coins == 0.0 ==> r.value == dollars)
      && (r.Some? && spot.Some? ==> r.value == dollars + Times(coins, spot.value))
  {}

  function BuyAvail(w: World): Option<real> {
    AvailableFunds(w.buyFunds, w.asset, FirstSpot(w.buyBook, w.sellBook))
  }

  function SellAvail(w: World): Option<real> {
    AvailableFunds(w.sellFunds, w.asset, FirstSpot(w.buyBook, w.sellBook))
  }

  // Each side's funds are those on its own venue, at the spot price both books are priced at.
  lemma FundsOfVenues(w: World)
    ensures var spot := FirstSpot(w.buyBook, w.sellBook);
      BuyAvail(w) == AvailableFunds(w.buyFunds, w.asset, spot) && SellAvail(w) == AvailableFunds(w.sellFunds, w.asset, spot)
  {}

  ghost predicate VenuesBounded(w: World) {
    Bounded(w.buyVenue) && Bounded(w.sellVenue) && Bounded(w.hedgeVenue)
  }

  // Midpoint of the book, or its only side, or the fallback.
  function MidOr(fallback: real, book: Book): real {
    if book.bids != [] && book.asks != [] then (book.bids[0].price + book.asks[0].price) / 2.0
    else if book.bids != [] then book.bids[0].price
    else if book.asks != [] then book.asks[0].price
    else fallback
  }

  // The emergency order on the venue that filled: its other side, for the whole fill.
  function HedgeOrder(buyFilled: bool, leg: OrderResult, book: Book, slippagePct: real): OrderRequest {
    var mid, slip := MidOr(leg.filledPrice, book), slippagePct / 100.0;
    if buyFilled then OrderRequest(Sell, leg.filledSize, Times(mid, 1.0 - slip))
    else OrderRequest(Buy, leg.filledSize, Times(mid, 1.0 + slip))
  }

  // The status an undisturbed run ends in is determined by the answers.
  function Outcome(buyOk: bool, sellOk: bool, hedgeOk: bool): TradeStatus {
    if buyOk && sellOk then TradeStatus.Filled
    else if !buyOk && !sellOk then TradeStatus.Failed
    else if hedgeOk then TradeStatus.Hedged
    else TradeStatus.Stuck
  }

  // ---------------------------------------------------------------------------------------------
  // The rows a trade goes through
  // ---------------------------------------------------------------------------------------------

  function TermsIn(walked: WalkedTrade, w: World): Terms {
    Terms(walked, ContractAt(w.buyBook, w.sellBook, w.buyInst, w.sellInst, w.expiry, w.pricedAt))
  }

  function Opened(id: nat, terms: Terms, openedAt: int): Trade {
    Trade(id, openedAt, terms, TradeStatus.Placing, terms.walked.economics.tradeableSize, false, None, [])
  }

  predicate Fresh(t: Trade) {
    t == Opened(t.oppId, t.terms, t.openedAt) && Sound(t.terms.walked, t.terms.contract)
  }

  lemma OpenedIsOk(t: Trade)
    requires Fresh(t)
    ensures TradeOk(t, Fills(0.0, 0.0, 0.0, true))
  {}

  function IocRow(req: OrderRequest): OrderRow {
    NewRow(IocLimit, req)
  }

  function LegRows(buyReq: OrderRequest, sellReq: OrderRequest, buyRes: OrderResult, sellRes: OrderResult):
    seq<OrderRow>
  {
    [Answered(IocRow(buyReq), buyRes), Answered(IocRow(sellReq), sellRes)]
  }

  predicate Legs(t: Trade, buyReq: OrderRequest, sellReq: OrderRequest) {
    buyReq == BuyOrder(t.terms.walked) && sellReq == SellOrder(t.terms.walked)
  }

  function LegFills(buyAns: VenueAnswer, sellAns: VenueAnswer): Fills {
    Fills(buyAns.executed, sellAns.executed, 0.0, Honest(buyAns) && Honest(sellAns))
  }

  // An answered row records the answer, and the answer counts as a fill exactly when the row does.
  lemma AnsweredRecords(kind: OrderKind, req: OrderRequest, ans: VenueAnswer)
    requires WithinOrder(ans, req.size)
    ensures var row := Answered(NewRow(kind, req), ResultOf(ans));
      && Asks(row, kind, req) && Updated(row) && Recorded(row) == ResultOf(ans)
      && (RowOk(row) <==> LegOk(ResultOf(ans)))
      && RowFilled(row) == (if LegOk(ResultOf(ans)) then ResultOf(ans).filledSize else 0.0)
      && 0.0 <= RowFilled(row) <= row.requestedSize
      && (Honest(ans) <==> ans.executed == RowFilled(row))
  {}

  lemma NewAsks(kind: OrderKind, req: OrderRequest)
    requires 0.0 <= req.size
    ensures var row := NewRow(kind, req);
      Asks(row, kind, req) && !Updated(row) && !RowOk(row) && RowFilled(row) == 0.0 <= row.requestedSize
  {}

  lemma SizeIsPositive(t: Trade)
    requires Fresh(t)
    ensures 0.0 < t.requestedSize == BuyOrder(t.terms.walked).size == SellOrder(t.terms.walked).size
  {}

  // While the two legs are created, executed and answered, the rows stay consistent.
  lemma PlacingStages(t: Trade, buyReq: OrderRequest, sellReq: OrderRequest, buyAns: VenueAnswer, sellAns: VenueAnswer)
    requires Fresh(t) && Legs(t, buyReq, sellReq)
    requires WithinOrder(buyAns, buyReq.size) && WithinOrder(sellAns, sellReq.size)
    ensures var buyRes, sellRes := ResultOf(buyAns), ResultOf(sellAns);
      var f := LegFills(buyAns, sellAns);
      && TradeOk(t.(orders := [IocRow(buyReq)]), Fills(0.0, 0.0, 0.0, true))
      && TradeOk(t.(orders := [IocRow(buyReq), IocRow(sellReq)]), Fills(0.0, 0.0, 0.0, true))
      && TradeOk(t.(orders := [IocRow(buyReq), IocRow(sellReq)]), f)
      && TradeOk(t.(orders := [Answered(IocRow(buyReq), buyRes), IocRow(sellReq)]), f)
      && TradeOk(t.(orders := LegRows(buyReq, sellReq, buyRes, sellRes)), f)
  {
    SizeIsPositive(t);
    NewAsks(IocLimit, buyReq);
    NewAsks(IocLimit, sellReq);
    AnsweredRecords(IocLimit, buyReq, buyAns);
    AnsweredRecords(IocLimit, sellReq, sellAns);
    hide Sound, Asks, RowOk, RowFilled, Updated, Honest, Answered, NewRow, ResultOf, Recorded, LegOk;
  }

  // Both legs have been answered and nothing else has happened.
  predicate Answered2(t: Trade, f: Fills, buyRes: OrderResult, sellRes: OrderResult) {
    && TradeOk(t, f) && t.status == TradeStatus.Placing && |t.orders| == 2 && Answers(t, 2)
    && Recorded(t.orders[0]) == buyRes && Recorded(t.orders[1]) == sellRes
    && RowFilled(t.orders[0]) == (if LegOk(buyRes) then buyRes.filledSize else 0.0)
    && RowFilled(t.orders[1]) == (if LegOk(sellRes) then sellRes.filledSize else 0.0)
    && (RowOk(t.orders[0]) <==> LegOk(buyRes)) && (RowOk(t.orders[1]) <==> LegOk(sellRes))
  }

  lemma PlacedIsAnswered(t: Trade, buyReq: OrderRequest, sellReq: OrderRequest, buyAns: VenueAnswer,
                         sellAns: VenueAnswer)
    requires Fresh(t) && Legs(t, buyReq, sellReq)
    requires WithinOrder(buyAns, buyReq.size) && WithinOrder(sellAns, sellReq.size)
    ensures var buyRes, sellRes := ResultOf(buyAns), ResultOf(sellAns);
      Answered2(t.(orders := LegRows(buyReq, sellReq, buyRes, sellRes)), LegFills(buyAns, sellAns), buyRes, sellRes)
  {
    PlacingStages(t, buyReq, sellReq, buyAns, sellAns);
    AnsweredRecords(IocLimit, buyReq, buyAns);
    AnsweredRecords(IocLimit, sellReq, sellAns);
    hide TradeOk, Asks, RowOk, RowFilled, Updated, Honest, Answered, NewRow, ResultOf, Recorded, LegOk;
  }

  function FilledTrade(t: Trade, pnl: real): Trade {
    t.(status := TradeStatus.Filled, closed := true, netPnl := Some(pnl))
  }

  function FailedTrade(t: Trade): Trade {
    t.(status := TradeStatus.Failed, closed := true)
  }

  function HedgedTrade(t: Trade, pnl: real): Trade {
    t.(status := TradeStatus.Hedged, closed := true, netPnl := Some(pnl))
  }

  lemma DispatchStages(t: Trade, f: Fills, buyRes: OrderResult, sellRes: OrderResult, pnl: real)
    requires Answered2(t, f, buyRes, sellRes)
    requires pnl == NetPnl(buyRes, sellRes, t.terms.contract.buyFee, t.terms.contract.sellFee)
    ensures LegOk(buyRes) && LegOk(sellRes) ==> TradeOk(FilledTrade(t, pnl), f)
    ensures !LegOk(buyRes) && !LegOk(sellRes) ==> TradeOk(FailedTrade(t), f)
    ensures LegOk(buyRes) != LegOk(sellRes) ==> TradeOk(t.(status := TradeStatus.Hedging), f)
  {
    hide Sound, Asks, RowOk, RowFilled, Updated, Recorded, LegOk, NetPnl;
  }

  // Hedging has begun, with no market-out order yet.
  predicate Naked(t: Trade, f: Fills, buyFilled: bool, leg: OrderResult) {
    && TradeOk(t, f) && t.status == TradeStatus.Hedging && |t.orders| == 2
    && RowOk(t.orders[0]) == buyFilled && LegOk(leg) && Recorded(FilledLeg(t)) == leg
    && RowFilled(t.orders[0]) + RowFilled(t.orders[1]) == leg.filledSize
  }

  lemma BecomesNaked(t: Trade, f: Fills, buyRes: OrderResult, sellRes: OrderResult)
    requires Answered2(t, f, buyRes, sellRes) && LegOk(buyRes) != LegOk(sellRes)
    ensures Naked(t.(status := TradeStatus.Hedging), f, LegOk(buyRes), if LegOk(buyRes) then buyRes else sellRes)
  {
    hide Sound, Asks, RowOk, RowFilled, Updated, Recorded, LegOk;
  }

  lemma NakedFacts(t: Trade, f: Fills, buyFilled: bool, leg: OrderResult)
    requires Naked(t, f, buyFilled, leg)
    ensures leg.filledSize > 0.0 && t.status == TradeStatus.Hedging && |t.orders| == 2
  {}

  function OutRow(req: OrderRequest): OrderRow {
    NewRow(MarketOut, req)
  }

  function OutAnswered(t: Trade, req: OrderRequest, res: OrderResult): Trade {
    t.(orders := t.orders + [Answered(OutRow(req), res)])
  }

  lemma StuckWithoutOrder(t: Trade, f: Fills, buyFilled: bool, leg: OrderResult)
    requires Naked(t, f, buyFilled, leg)
    ensures TradeOk(t.(status := TradeStatus.Stuck), f)
  {}

  function HedgedFills(f: Fills, ans: VenueAnswer): Fills {
    Fills(f.buy, f.sell, ans.executed, f.honest && Honest(ans))
  }

  // The order that closes the filled leg.
  predicate Closes(req: OrderRequest, buyFilled: bool, leg: OrderResult) {
    req.size == leg.filledSize && req.side == if buyFilled then Sell else Buy
  }

  lemma HedgeSent(t: Trade, f: Fills, buyFilled: bool, leg: OrderResult, req: OrderRequest, ans: VenueAnswer)
    requires Naked(t, f, buyFilled, leg) && Closes(req, buyFilled, leg) && WithinOrder(ans, req.size)
    ensures TradeOk(t.(orders := t.orders + [OutRow(req)]), f)
    ensures TradeOk(t.(orders := t.orders + [OutRow(req)]), HedgedFills(f, ans))
  {
    NakedFacts(t, f, buyFilled, leg);
    NewAsks(MarketOut, req);
    hide Sound, RowOk, RowFilled, Updated, Honest, NewRow, Recorded, LegOk, NetPnl;
  }

  lemma HedgeAnswered(t: Trade, f: Fills, buyFilled: bool, leg: OrderResult, req: OrderRequest, ans: VenueAnswer)
    requires Naked(t, f, buyFilled, leg) && Closes(req, buyFilled, leg) && WithinOrder(ans, req.size)
    ensures var answered := OutAnswered(t, req, ResultOf(ans));
      && TradeOk(answered, HedgedFills(f, ans)) && Answers(answered, 3)
      && answered.status == TradeStatus.Hedging && |answered.orders| == 3
      && answered.oppId == t.oppId && answered.openedAt == t.openedAt
      && (forall pnl :: HedgedTrade(answered, pnl).oppId == t.oppId)
      && (RowOk(answered.orders[2]) <==> LegOk(ResultOf(ans)))
      && HedgedPnl(answered) == HedgePnl(buyFilled, leg, ResultOf(ans))
  {
    NakedFacts(t, f, buyFilled, leg);
    AnsweredRecords(MarketOut, req, ans);
    hide Sound, RowOk, RowFilled, Updated, Honest, Answered, NewRow, Recorded, LegOk, NetPnl, ResultOf, HedgePnl;
  }

  // A hedging trade whose market-out has been answered.
  lemma HedgeStages(t: Trade, f: Fills, pnl: real)
    requires TradeOk(t, f) && t.status == TradeStatus.Hedging && |t.orders| == 3 && Answers(t, 3)
    requires pnl == HedgedPnl(t)
    ensures RowOk(t.orders[2]) ==> TradeOk(HedgedTrade(t, pnl), f)
    ensures !RowOk(t.orders[2]) ==> TradeOk(t.(status := TradeStatus.Stuck), f)
  {
    hide Sound, Asks, RowOk, RowFilled, Updated, Recorded, HedgePnl;
  }

  // ---------------------------------------------------------------------------------------------
  // Where an undisturbed run ends
  // ---------------------------------------------------------------------------------------------

  // The row a hedge ends with.
  function Closeout(t: Trade, buyFilled: bool, leg: OrderResult, book: Option<Book>, venue: Venue, slippagePct: real):
    Trade
  {
    if book.None? then t.(status := TradeStatus.Stuck)
    else
      var req := HedgeOrder(buyFilled, leg, book.value, slippagePct);
      var res := ResultOf(venue(req));
      if LegOk(res) then HedgedTrade(OutAnswered(t, req, res), HedgePnl(buyFilled, leg, res))
      else OutAnswered(t, req, res).(status := TradeStatus.Stuck)
  }

  function CloseoutFills(f: Fills, buyFilled: bool, leg: OrderResult, book: Option<Book>, venue: Venue,
                         slippagePct: real): Fills
  {
    if book.None? then f else HedgedFills(f, venue(HedgeOrder(buyFilled, leg, book.value, slippagePct)))
  }

  lemma CloseoutWithoutBook(t: Trade, f: Fills, buyFilled: bool, leg: OrderResult, venue: Venue, slippagePct: real)
    ensures Closeout(t, buyFilled, leg, None, venue, slippagePct) == t.(status := TradeStatus.Stuck)
    ensures CloseoutFills(f, buyFilled, leg, None, venue, slippagePct) == f
  {}

  lemma CloseoutWithBook(t: Trade, f: Fills, buyFilled: bool, leg: OrderResult, book: Book, venue: Venue,
                         slippagePct: real)
    ensures var req := HedgeOrder(buyFilled, leg, book, slippagePct);
      var res := ResultOf(venue(req));
      var answered, pnl := OutAnswered(t, req, res), HedgePnl(buyFilled, leg, res);
      && Closes(req, buyFilled, leg)
      && Closeout(t, buyFilled, leg, Some(book), venue, slippagePct)
         == (if LegOk(res) then HedgedTrade(answered, pnl) else answered.(status := TradeStatus.Stuck))
      && CloseoutFills(f, buyFilled, leg, Some(book), venue, slippagePct) == HedgedFills(f, venue(req))
  {}

  // The row an answered trade ends with.
  function Resolution(t: Trade, buyRes: OrderResult, sellRes: OrderResult, buyFee: real, sellFee: real,
                      hedgeBook: Option<Book>, hedgeVenue: Venue, slippagePct: real): Trade
  {
    if LegOk(buyRes) && LegOk(sellRes) then FilledTrade(t, NetPnl(buyRes, sellRes, buyFee, sellFee))
    else if !LegOk(buyRes) && !LegOk(sellRes) then FailedTrade(t)
    else Closeout(t.(status := TradeStatus.Hedging), LegOk(buyRes), if LegOk(buyRes) then buyRes else sellRes,
                  hedgeBook, hedgeVenue, slippagePct)
  }

  function ResolvedFills(f: Fills, buyRes: OrderResult, sellRes: OrderResult, hedgeBook: Option<Book>,
                         hedgeVenue: Venue, slippagePct: real): Fills
  {
    if LegOk(buyRes) == LegOk(sellRes) then f
    else CloseoutFills(f, LegOk(buyRes), if LegOk(buyRes) then buyRes else sellRes, hedgeBook, hedgeVenue, slippagePct)
  }

  lemma ResolutionCases(t: Trade, f: Fills, buyRes: OrderResult, sellRes: OrderResult, buyFee: real, sellFee: real,
                        hedgeBook: Option<Book>, hedgeVenue: Venue, slippagePct: real)
    ensures var r := Resolution(t, buyRes, sellRes, buyFee, sellFee, hedgeBook, hedgeVenue, slippagePct);
      var fills := ResolvedFills(f, buyRes, sellRes, hedgeBook, hedgeVenue, slippagePct);
      var buyOk, sellOk := LegOk(buyRes), LegOk(sellRes);
      var leg := if buyOk then buyRes else sellRes;
      && (buyOk && sellOk ==> r == FilledTrade(t, NetPnl(buyRes, sellRes, buyFee, sellFee)) && fills == f)
      && (!buyOk && !sellOk ==> r == FailedTrade(t) && fills == f)
      && (buyOk != sellOk ==>
            && r == Closeout(t.(status := TradeStatus.Hedging), buyOk, leg, hedgeBook, hedgeVenue, slippagePct)
            && fills == CloseoutFills(f, buyOk, leg, hedgeBook, hedgeVenue, slippagePct))
  {}

  // The row an undisturbed run ends with, from what the venues answer.
  function FinalRow(id: nat, walked: WalkedTrade, w: World, slippagePct: real): Trade {
    var buyReq, sellReq := BuyOrder(walked), SellOrder(walked);
    var buyRes, sellRes := ResultOf(w.buyVenue(buyReq)), ResultOf(w.sellVenue(sellReq));
    var t := Opened(id, TermsIn(walked, w), w.openedAt);
    Resolution(t.(orders := LegRows(buyReq, sellReq, buyRes, sellRes)), buyRes, sellRes, w.buyInst.takerFee,
               w.sellInst.takerFee, w.hedgeBook, w.hedgeVenue, slippagePct)
  }

  // And what the venues have executed by then.
  function FinalFills(walked: WalkedTrade, w: World, slippagePct: real): Fills {
    var buyAns, sellAns := w.buyVenue(BuyOrder(walked)), w.sellVenue(SellOrder(walked));
    ResolvedFills(LegFills(buyAns, sellAns), ResultOf(buyAns), ResultOf(sellAns), w.hedgeBook, w.hedgeVenue, slippagePct)
  }

  lemma FinalRowIs(id: nat, walked: WalkedTrade, w: World, slippagePct: real)
    ensures var t, buyReq, sellReq := Opened(id, TermsIn(walked, w), w.openedAt), BuyOrder(walked), SellOrder(walked);
      var buyAns, sellAns := w.buyVenue(buyReq), w.sellVenue(sellReq);
      var buyRes, sellRes := ResultOf(buyAns), ResultOf(sellAns);
      && FinalRow(id, walked, w, slippagePct)
         == Resolution(t.(orders := LegRows(buyReq, sellReq, buyRes, sellRes)), buyRes, sellRes, w.buyInst.takerFee,
                       w.sellInst.takerFee, w.hedgeBook, w.hedgeVenue, slippagePct)
      && FinalFills(walked, w, slippagePct)
         == ResolvedFills(LegFills(buyAns, sellAns), buyRes, sellRes, w.hedgeBook, w.hedgeVenue, slippagePct)
      && Legs(t, buyReq, sellReq)
      && w.buyInst.takerFee == t.terms.contract.buyFee && w.sellInst.takerFee == t.terms.contract.sellFee
  {}

  // An undisturbed run always ends in a terminal status, the one the answers determine.
  lemma FinalStatus(id: nat, walked: WalkedTrade, w: World, slippagePct: real)
    ensures var buyRes, sellRes := ResultOf(w.buyVenue(BuyOrder(walked))), ResultOf(w.sellVenue(SellOrder(walked)));
      var leg := if LegOk(buyRes) then buyRes else sellRes;
      var hedgeOk := w.hedgeBook.Some?
        && LegOk(ResultOf(w.hedgeVenue(HedgeOrder(LegOk(buyRes), leg, w.hedgeBook.value, slippagePct))));
      FinalRow(id, walked, w, slippagePct).status == Outcome(LegOk(buyRes), LegOk(sellRes), hedgeOk)
    ensures Terminal(FinalRow(id, walked, w, slippagePct))
  {}

  // ---------------------------------------------------------------------------------------------
  // The market-out on its book
  // ---------------------------------------------------------------------------------------------

  // As far from the best bid as from the best ask, the only one of them, or the fallback.
  predicate InTheMiddle(mid: real, fallback: real, book: Book) {
    && (book.bids != [] && book.asks != [] ==> mid - book.bids[0].price == book.asks[0].price - mid)
    && (book.bids != [] && book.asks == [] ==> mid == book.bids[0].price)
    && (book.bids == [] && book.asks != [] ==> mid == book.asks[0].price)
    && (book.bids == [] && book.asks == [] ==> mid == fallback)
  }

  // A bought leg is sold and a sold one bought back, in full, at a limit that is worse than the middle of
  // the book by exactly the configured share of it.
  lemma HedgeOrderOnBook(buyFilled: bool, leg: OrderResult, book: Book, slippagePct: real, mid: real)
    requires InTheMiddle(mid, leg.filledPrice, book)
    ensures var o := HedgeOrder(buyFilled, leg, book, slippagePct);
      && o.size == leg.filledSize
      && (buyFilled ==> o.side == Sell && 100.0 * (mid - o.limitPrice) == Times(mid, slippagePct))
      && (!buyFilled ==> o.side == Buy && 100.0 * (o.limitPrice - mid) == Times(mid, slippagePct))
      && (0.0 <= mid && 0.0 <= slippagePct ==> WithinLimit(o.side, mid, o.limitPrice))
  {
    if 0.0 <= mid && 0.0 <= slippagePct {
      MulMono(0.0, mid, slippagePct);
    }
  }

  // The venue answers the order as the paper venue does on the book.
  predicate AnswersOnPaper(venue: Venue, order: OrderRequest, book: Book, rejectProb: real, rejectDraw: real,
                           noise: real)
  {
    venue(order).reply == Some(Simulate(order, book, rejectProb, rejectDraw, noise))
  }

  lemma ShareOfMiddle(mid: real, share: real, limit: real)
    ensures 100.0 * (mid - limit) == Times(mid, share) ==> limit == Times(mid, 1.0 - share / 100.0)
    ensures 100.0 * (limit - mid) == Times(mid, share) ==> limit == Times(mid, 1.0 + share / 100.0)
  {}

  // On an unchanged book whose touch covers the fill, and not rejected at random, the paper venue closes
  // the leg in full and the trade ends HEDGED exactly when the touch, after noise, lies within slippage
  // of the middle.  Without a touch, on a one-sided or empty book, it ends STUCK.
  lemma PaperMarketOut(t: Trade, buyFilled: bool, leg: OrderResult, book: Book, venue: Venue, slippagePct: real,
                       rejectProb: real, rejectDraw: real, noise: real)
    requires NonNegativeSizes(book.bids) && NonNegativeSizes(book.asks) && rejectProb <= rejectDraw
    requires var touch := if buyFilled then book.bids else book.asks;
      0.0 < leg.filledSize && (touch != [] ==> leg.filledSize <= touch[0].size)
    requires AnswersOnPaper(venue, HedgeOrder(buyFilled, leg, book, slippagePct), book, rejectProb, rejectDraw, noise)
    ensures var touch := if buyFilled then book.bids else book.asks;
      var other := if buyFilled then book.asks else book.bids;
      var after := Closeout(t, buyFilled, leg, Some(book), venue, slippagePct);
      if touch == [] then after.status == TradeStatus.Stuck
      else
        var mid := if other == [] then touch[0].price else (touch[0].price + other[0].price) / 2.0;
        var price := Times(touch[0].price, 1.0 + noise);
        && after.status in {TradeStatus.Hedged, TradeStatus.Stuck}
        && (after.status == TradeStatus.Hedged <==>
              if buyFilled then price >= Times(mid, 1.0 - slippagePct / 100.0)
              else price <= Times(mid, 1.0 + slippagePct / 100.0))
        && (after.status == TradeStatus.Hedged ==>
              Last(after.orders).filledSize == Some(leg.filledSize)
              && after.netPnl == Some(Times(if buyFilled then price - leg.filledPrice else leg.filledPrice - price,
                                            leg.filledSize)))
  {
    var touch := if buyFilled then book.bids else book.asks;
    var other := if buyFilled then book.asks else book.bids;
    var mid := if touch == [] && other == [] then leg.filledPrice
               else if touch == [] then other[0].price
               else if other == [] then touch[0].price
               else (touch[0].price + other[0].price) / 2.0;
    var order := HedgeOrder(buyFilled, leg, book, slippagePct);
    HedgeOrderOnBook(buyFilled, leg, book, slippagePct, mid);
    ShareOfMiddle(mid, slippagePct, order.limitPrice);
    SimulateFills(order, book, rejectProb, rejectDraw, noise);
    if touch != [] {
      TouchPrice(leg.filledSize, touch);
    }
    var res := ResultOf(venue(order));
    assert res == Simulate(order, book, rejectProb, rejectDraw, noise);
    TimesNegative(leg.filledSize, res.filledPrice - leg.filledPrice);
    TimesCommutes(leg.filledSize, res.filledPrice - leg.filledPrice);
    TimesCommutes(leg.filledSize, leg.filledPrice - res.filledPrice);
    hide HedgeOrder, Simulate, WalkCost, Depth, NonNegativeSizes, Times, MidOr;
    CloseoutWithBook(t, Fills(0.0, 0.0, 0.0, true), buyFilled, leg, book, venue, slippagePct);
  }

  // An exception raised after a true fill leaves a FAILED row and a position no row shows; a FAILED
  // trade is flat on both venues exactly when both answers told the truth.
  lemma FailedIsFlatIffHonest(id: nat, walked: WalkedTrade, w: World, slippagePct: real)
    requires FinalRow(id, walked, w, slippagePct).status == TradeStatus.Failed
    ensures var t, f := FinalRow(id, walked, w, slippagePct), FinalFills(walked, w, slippagePct);
      var buyAns, sellAns := w.buyVenue(BuyOrder(walked)), w.sellVenue(SellOrder(walked));
      && BuyVenuePosition(t, f) == buyAns.executed && SellVenuePosition(t, f) == -sellAns.executed
      && (BuyVenuePosition(t, f) == 0.0 && SellVenuePosition(t, f) == 0.0 <==> Honest(buyAns) && Honest(sellAns))
  {}

  lemma ExceptionHidesAFill(id: nat, walked: WalkedTrade, w: World, slippagePct: real)
    requires w.buyVenue(BuyOrder(walked)) == VenueAnswer(None, walked.economics.tradeableSize)
    requires w.sellVenue(SellOrder(walked)) == VenueAnswer(Some(OrderResult(OrderStatus.Rejected, 0.0, 0.0)), 0.0)
    ensures FinalRow(id, walked, w, slippagePct).status == TradeStatus.Failed
    ensures Exposure(FinalRow(id, walked, w, slippagePct), FinalFills(walked, w, slippagePct))
         == walked.economics.tradeableSize
  {}

  predicate AuthorisedIn(t: WalkedTrade, cfg: Config, w: World) {
    Authorised(t, cfg, w.buyInst, w.sellInst, BuyAvail(w), SellAvail(w),
               ContractAt(w.buyBook, w.sellBook, w.buyInst, w.sellInst, w.expiry, w.pricedAt))
  }

  lemma AuthorisedTerms(t: WalkedTrade, cfg: Config, w: World)
    requires AuthorisedIn(t, cfg, w)
    ensures Sound(t, TermsIn(t, w).contract)
  {
    AuthorisedIsSound(t, cfg, w.buyInst, w.sellInst, BuyAvail(w), SellAvail(w), TermsIn(t, w).contract);
    hide Authorised, Sound;
  }

  // When both venues honour their orders and fill them, the profit on record meets the guarantee.
  lemma RecordedProfitMeetsGuarantee(id: nat, walked: WalkedTrade, cfg: Config, w: World)
    requires AuthorisedIn(walked, cfg, w)
    requires var buyRes, sellRes := ResultOf(w.buyVenue(BuyOrder(walked))), ResultOf(w.sellVenue(SellOrder(walked)));
      && HonoursOrder(BuyOrder(walked), buyRes) && HonoursOrder(SellOrder(walked), sellRes)
      && buyRes.status == OrderStatus.Filled && sellRes.status == OrderStatus.Filled
    ensures var t := FinalRow(id, walked, w, cfg.slippagePct);
      && t.status == TradeStatus.Filled && t.netPnl.Some?
      && t.netPnl.value >= walked.economics.netProfit > 0.0 && t.netPnl.value >= cfg.minNetProfit
  {
    hide Times, UnitProfit, NetPnl;
    FullFillsMeetTheGuarantee(walked, cfg, w.buyInst, w.sellInst, BuyAvail(w), SellAvail(w),
                              ContractAt(w.buyBook, w.sellBook, w.buyInst, w.sellInst, w.expiry, w.pricedAt),
                              ResultOf(w.buyVenue(BuyOrder(walked))), ResultOf(w.sellVenue(SellOrder(walked))));
  }

  ghost predicate SizedIn(r: Result<WalkedTrade, Rejection>, cfg: Config, w: World) {
    Verdict(r, cfg, w.buyBook, w.sellBook, w.buyInst, w.sellInst, w.expiry, w.pricedAt, BuyAvail(w), SellAvail(w))
  }

  // At most the newest trade differs.
  predicate Others(before: seq<Trade>, after: seq<Trade>) {
    after != [] && |after| == |before| && after[..|after| - 1] == before[..|before| - 1]
  }

  // At most one opportunity differs.
  predicate OtherOpps(before: map<nat, Opportunity>, after: map<nat, Opportunity>, id: nat) {
    id in after && after == before[id := after[id]]
  }

  lemma OthersChain(a: seq<Trade>, b: seq<Trade>, c: seq<Trade>)
    requires Others(a, b) && Others(b, c)
    ensures Others(a, c)
  {}

  lemma SameOpps(opps: map<nat, Opportunity>, id: nat)
    requires id in opps
    ensures OtherOpps(opps, opps, id)
  {}

  // The newest trade is new, for opportunity id; the others are as before.
  predicate Appended(before: seq<Trade>, after: seq<Trade>, id: nat) {
    |after| == |before| + 1 && after[..|before|] == before && Last(after).oppId == id
  }

  lemma KillReasonFacts(killFile: bool, limits: Limits, trades: seq<Trade>, now: int)
    ensures KillReason(killFile, limits, trades, now) != Some(BothLegsFailed)
    ensures KillReason(killFile, limits, trades, now).None? ==> KillReason(false, limits, trades, now).None?
  {}

  lemma OneOpp(opps: map<nat, Opportunity>, id: nat, opp: Opportunity)
    ensures OtherOpps(opps, opps[id := opp], id)
  {}

  lemma OppsChain(a: map<nat, Opportunity>, b: map<nat, Opportunity>, c: map<nat, Opportunity>, id: nat)
    requires OtherOpps(a, b, id) && OtherOpps(b, c, id)
    ensures OtherOpps(a, c, id)
  {}

  lemma TradedIsNotPending(opps: map<nat, Opportunity>, trades: seq<Trade>, fills: seq<Fills>, id: nat)
    requires RowsOk(opps, trades, fills) && trades != [] && Last(trades).oppId == id && id in opps
    ensures opps[id].status != Pending
  {
    hide TradeOk;
    assert Linked(trades[|trades| - 1], opps[trades[|trades| - 1].oppId]);
  }

  // Only the listed opportunities may differ.
  predicate OnlyThese(before: map<nat, Opportunity>, after: map<nat, Opportunity>, ids: seq<nat>) {
    forall id :: id in before ==> id in after && (id !in ids ==> after[id] == before[id])
  }

  // The trades added are for the listed opportunities.
  predicate TradesFor(before: seq<Trade>, after: seq<Trade>, ids: seq<nat>) {
    before <= after && forall k :: |before| <= k < |after| ==> after[k].oppId in ids
  }

  // The first n have been dealt with.
  predicate Handled(opps: map<nat, Opportunity>, pending: seq<nat>, n: nat)
    requires n <= |pending|
  {
    forall i :: 0 <= i < n ==> pending[i] in opps && opps[pending[i]].status != Pending
  }

  // The opportunities got to by a tick that dealt with `done` of them.
  function Tried(pending: seq<nat>, done: nat): seq<nat>
    requires done <= |pending|
  {
    if done < |pending| then pending[..done + 1] else pending
  }

  lemma NoneTried(opps: map<nat, Opportunity>, trades: seq<Trade>, pending: seq<nat>)
    ensures OnlyThese(opps, opps, pending[..0]) && TradesFor(trades, trades, pending[..0]) && Handled(opps, pending, 0)
  {}

  lemma AllTried(pending: seq<nat>, done: nat)
    requires done <= |pending|
    ensures done < |pending| ==> Tried(pending, done) == pending[..done + 1]
    ensures done == |pending| ==> Tried(pending, done) == pending == pending[..done]
  {}

  lemma StillPending(before: map<nat, Opportunity>, after: map<nat, Opportunity>, pending: seq<nat>, done: nat)
    requires done < |pending| && pending[done] in before && OnlyThese(before, after, pending[..done])
    requires forall i, j :: 0 <= i < j < |pending| ==> pending[i] != pending[j]
    ensures pending[done] in after && after[pending[done]] == before[pending[done]]
  {}

  lemma OneMoreTried(start: map<nat, Opportunity>, before: map<nat, Opportunity>, after: map<nat, Opportunity>,
                     pending: seq<nat>, done: nat)
    requires done < |pending| && OtherOpps(before, after, pending[done])
    requires OnlyThese(start, before, pending[..done]) && Handled(before, pending, done)
    requires forall i, j :: 0 <= i < j < |pending| ==> pending[i] != pending[j]
    ensures OnlyThese(start, after, pending[..done + 1]) && Handled(after, pending, done)
    ensures after[pending[done]].status != Pending ==> Handled(after, pending, done + 1)
  {
    assert pending[..done + 1] == pending[..done] + [pending[done]];
  }

  lemma OneMoreTrade(start: seq<Trade>, before: seq<Trade>, after: seq<Trade>, pending: seq<nat>, done: nat)
    requires done < |pending| && TradesFor(start, before, pending[..done])
    requires after == before || Appended(before, after, pending[done])
    ensures TradesFor(start, after, pending[..done + 1])
  {
    assert pending[..done + 1] == pending[..done] + [pending[done]];
  }

  lemma BoundedAnswer(v: Venue, req: OrderRequest)
    requires Bounded(v) && req.size >= 0.0
    ensures WithinOrder(v(req), req.size)
  {}

  lemma ClosesInFull(req: OrderRequest, buyFilled: bool, leg: OrderResult)
    requires Closes(req, buyFilled, leg)
    ensures req.size == leg.filledSize
  {}

  class Executor {
    const cfg: Config
    const limits: Limits
    var opps: map<nat, Opportunity>
    var trades: seq<Trade>
    var commitsLeft: nat
    ghost var fills: seq<Fills>
    ghost var clock: int

    constructor (cfg: Config, limits: Limits, ghost start: int)
      ensures Valid() && this.cfg == cfg && this.limits == limits
      ensures opps == map[] && trades == [] && clock == start
    {
      this.cfg, this.limits := cfg, limits;
      opps, trades, fills, clock, commitsLeft := map[], [], [], start, 0;
    }

    ghost predicate Valid()
      reads this
    {
      RowsOk(opps, trades, fills) && RiskOk(trades, limits, clock)
    }

    // The screener detects an opportunity.
    method Detect(id: nat)
      requires Valid() && id !in opps
      modifies this`opps
      ensures Valid()
      ensures opps == old(opps)[id := Opportunity(Pending, None)]
    {
      DetectKeepsRows(opps, trades, fills, id);
      hide *;
      opps := opps[id := Opportunity(Pending, None)];
    }

    method Reject(id: nat, reason: Rejection) returns (ok: bool)
      requires Valid() && id in opps && opps[id].status == Pending && reason != BothLegsFailed
      modifies this`opps, this`commitsLeft
      ensures Valid()
      ensures ok == (old(commitsLeft) >= 1) && commitsLeft == old(commitsLeft) - (if ok then 1 else 0)
      ensures opps == if ok then old(opps)[id := Opportunity(OppStatus.Rejected, Some(reason))] else old(opps)
      ensures OtherOpps(old(opps), opps, id)
    {
      SameOpps(opps, id);
      OneOpp(opps, id, Opportunity(OppStatus.Rejected, Some(reason)));
      ok := commitsLeft > 0;
      if ok {
        RejectKeepsRows(opps, trades, fills, id, reason);
        hide *;
        opps := opps[id := Opportunity(OppStatus.Rejected, Some(reason))];
        commitsLeft := commitsLeft - 1;
      }
    }

    method OpenTrade(id: nat, terms: Terms, checkedAt: int, openedAt: int) returns (ok: bool)
      requires Valid() && id in opps && opps[id].status == Pending && Sound(terms.walked, terms.contract)
      requires clock <= checkedAt <= openedAt && KillReason(false, limits, trades, checkedAt).None?
      modifies this
      ensures Valid()
      ensures ok == (old(commitsLeft) >= 1) && commitsLeft == old(commitsLeft) - (if ok then 1 else 0)
      ensures !ok ==> unchanged(this)
      ensures ok ==>
        && opps == old(opps)[id := Opportunity(Approved, None)]
        && trades == old(trades) + [Opened(id, terms, openedAt)]
        && fills == old(fills) + [Fills(0.0, 0.0, 0.0, true)]
        && clock == openedAt
    {
      hide TradeOk, RowsOk, RiskOk, KillReason, Sound;
      ok := commitsLeft > 0;
      if ok {
        var t := Opened(id, terms, openedAt);
        ghost var f := Fills(0.0, 0.0, 0.0, true);
        OpenedIsOk(t);
        OpenKeepsRows(opps, trades, fills, t, f);
        OpenKeepsRisk(trades, limits, clock, checkedAt, t);
        opps := opps[id := Opportunity(Approved, None)];
        trades := trades + [t];
        fills := fills + [f];
        clock := openedAt;
        commitsLeft := commitsLeft - 1;
      }
    }

    // The newest trade is `t`, still being worked on; its opportunity is approved.
    ghost predicate Working(t: Trade, f: Fills)
      reads this
    {
      && Valid() && trades != [] && |fills| == |trades|
      && Last(trades) == t && Last(fills) == f && TradeOk(t, f) && IsActive(t)
      && t.oppId in opps && opps[t.oppId] == Opportunity(Approved, None)
    }

    lemma WorkingFacts()
      ensures forall t, f :: Working(t, f) ==>
        && Valid() && trades != [] && Last(trades) == t && Last(trades).oppId == t.oppId
        && fills != [] && Last(fills) == f
        && t.oppId in opps && opps[t.oppId] == Opportunity(Approved, None)
    {}

    // One transaction on the newest trade and its opportunity.
    method Commit(t: Trade, t': Trade, opp: Opportunity, ghost f: Fills) returns (ok: bool)
      requires Working(t, f)
      requires t'.oppId == t.oppId && t'.openedAt == t.openedAt
      requires TradeOk(t', f) && Linked(t', opp) && OppOk(opp)
      modifies this`opps, this`trades, this`commitsLeft
      ensures Valid()
      ensures ok == (old(commitsLeft) >= 1) && commitsLeft == old(commitsLeft) - (if ok then 1 else 0)
      ensures Others(old(trades), trades) && trades[|trades| - 1] == if ok then t' else t
      ensures opps == if ok then old(opps)[t.oppId := opp] else old(opps)
    {
      hide TradeOk, RowsOk, RiskOk, Linked, OppOk, IsActive;
      ok := commitsLeft > 0;
      if ok {
        assert Front(fills) + [Last(fills)] == fills;
        UpdateKeepsRows(opps, trades, fills, t', f, opp);
        UpdateKeepsRisk(trades, limits, clock, t');
        opps := opps[t.oppId := opp];
        trades := Front(trades) + [t'];
        commitsLeft := commitsLeft - 1;
      }
    }

    // The order rows of the trade change; work on it goes on.
    method CommitOrders(t: Trade, orders: seq<OrderRow>, ghost f: Fills) returns (ok: bool)
      requires Working(t, f) && TradeOk(t.(orders := orders), f)
      modifies this`opps, this`trades, this`commitsLeft
      ensures ok == (old(commitsLeft) >= 1) && commitsLeft == old(commitsLeft) - (if ok then 1 else 0)
      ensures Working(if ok then t.(orders := orders) else t, f)
      ensures Others(old(trades), trades) && opps == old(opps)
    {
      hide TradeOk, RowsOk, RiskOk;
      assert opps[t.oppId := Opportunity(Approved, None)] == opps;
      ok := Commit(t, t.(orders := orders), Opportunity(Approved, None), f);
    }

    // The venues execute; no row changes.
    ghost method Execute(t: Trade, f: Fills, f': Fills)
      requires Working(t, f) && TradeOk(t, f')
      modifies this`fills
      ensures Working(t, f')
    {
      hide TradeOk, RiskOk;
      assert Linked(t, opps[t.oppId]) && OppOk(opps[t.oppId]);
      UpdateKeepsRows(opps, trades, fills, t, f', opps[t.oppId]);
      assert opps[t.oppId := opps[t.oppId]] == opps;
      assert Front(trades) + [t] == trades;
      fills := Front(fills) + [f'];
    }

    // Both IOC limits go out together; what the venues execute is fixed by then.
    method PlaceLegs(t: Trade, buyReq: OrderRequest, sellReq: OrderRequest, buyVenue: Venue, sellVenue: Venue)
      returns (ok: bool, buyRes: OrderResult, sellRes: OrderResult, ghost f: Fills)
      requires Working(t, Fills(0.0, 0.0, 0.0, true))
      requires Fresh(t) && Legs(t, buyReq, sellReq) && Bounded(buyVenue) && Bounded(sellVenue)
      modifies this`opps, this`trades, this`commitsLeft, this`fills
      ensures Valid()
      ensures Others(old(trades), trades) && opps == old(opps)
      ensures buyRes == ResultOf(buyVenue(buyReq)) && sellRes == ResultOf(sellVenue(sellReq))
      ensures ok == (old(commitsLeft) >= 4) && (ok ==> commitsLeft + 4 == old(commitsLeft))
      ensures Last(trades).oppId == t.oppId
      ensures var t' := t.(orders := LegRows(buyReq, sellReq, buyRes, sellRes));
        ok ==> Working(t', f) && Answered2(t', f, buyRes, sellRes)
      ensures f == LegFills(buyVenue(buyReq), sellVenue(sellReq))
    {
      var buyRow, sellRow := IocRow(buyReq), IocRow(sellReq);
      ghost var buyAns, sellAns := buyVenue(buyReq), sellVenue(sellReq);
      buyRes, sellRes := ResultOf(buyVenue(buyReq)), ResultOf(sellVenue(sellReq));
      ghost var f0 := Fills(0.0, 0.0, 0.0, true);
      f := LegFills(buyAns, sellAns);
      SizeIsPositive(t);
      BoundedAnswer(buyVenue, buyReq);
      BoundedAnswer(sellVenue, sellReq);
      PlacingStages(t, buyReq, sellReq, buyAns, sellAns);
      PlacedIsAnswered(t, buyReq, sellReq, buyAns, sellAns);
      WorkingFacts();
      hide Valid, Working, TradeOk, Legs, Bounded, ResultOf, Honest, Answered, NewRow, Answered2, IocRow, Fresh, LegFills;
      ok := CommitOrders(t, [buyRow], f0);
      WorkingFacts();
      if !ok { return; }
      ok := CommitOrders(t.(orders := [buyRow]), [buyRow, sellRow], f0);
      WorkingFacts();
      if !ok { return; }
      Execute(t.(orders := [buyRow, sellRow]), f0, f);
      ok := CommitOrders(t.(orders := [buyRow, sellRow]), [Answered(buyRow, buyRes), sellRow], f);
      WorkingFacts();
      if !ok { return; }
      ok := CommitOrders(t.(orders := [Answered(buyRow, buyRes), sellRow]),
                         LegRows(buyReq, sellReq, buyRes, sellRes), f);
      WorkingFacts();
    }

    method MarkStuck(t: Trade, ghost f: Fills) returns (ok: bool)
      requires Working(t, f) && TradeOk(t.(status := TradeStatus.Stuck), f)
      modifies this`opps, this`trades, this`commitsLeft
      ensures Valid()
      ensures ok == (old(commitsLeft) >= 1) && commitsLeft == old(commitsLeft) - (if ok then 1 else 0)
      ensures Others(old(trades), trades) && OtherOpps(old(opps), opps, t.oppId)
      ensures Last(trades) == if ok then t.(status := TradeStatus.Stuck) else t
    {
      WorkingFacts();
      hide Valid, Working, TradeOk;
      ok := Commit(t, t.(status := TradeStatus.Stuck), Opportunity(Approved, None), f);
    }

    method CommitHedged(t: Trade, pnl: real, ghost f: Fills) returns (ok: bool)
      requires Working(t, f) && TradeOk(HedgedTrade(t, pnl), f)
      modifies this`opps, this`trades, this`commitsLeft
      ensures Valid()
      ensures ok == (old(commitsLeft) >= 1) && commitsLeft == old(commitsLeft) - (if ok then 1 else 0)
      ensures Others(old(trades), trades) && OtherOpps(old(opps), opps, t.oppId)
      ensures Last(trades) == if ok then HedgedTrade(t, pnl) else t
    {
      WorkingFacts();
      hide Valid, Working, TradeOk;
      ok := Commit(t, HedgedTrade(t, pnl), Opportunity(Executed, None), f);
    }

    // Sends the market-out order and records the answer.
    method SendOut(t: Trade, buyFilled: bool, leg: OrderResult, req: OrderRequest, venue: Venue, ghost f: Fills)
      returns (ok: bool, res: OrderResult, ghost f': Fills)
      requires Working(t, f) && Naked(t, f, buyFilled, leg) && Bounded(venue)
      requires Closes(req, buyFilled, leg)
      modifies this`opps, this`trades, this`commitsLeft, this`fills
      ensures Others(old(trades), trades) && opps == old(opps)
      ensures Valid() && Last(trades).oppId == t.oppId
      ensures res == ResultOf(venue(req)) && t.oppId in opps
      ensures ok == (old(commitsLeft) >= 2) && (ok ==> commitsLeft + 2 == old(commitsLeft))
      ensures f' == HedgedFills(f, venue(req))
      ensures ok ==> Working(OutAnswered(t, req, res), f')
    {
      var row := OutRow(req);
      ghost var ans := venue(req);
      res := ResultOf(venue(req));
      f' := HedgedFills(f, ans);
      NakedFacts(t, f, buyFilled, leg);
      BoundedAnswer(venue, req);
      HedgeSent(t, f, buyFilled, leg, req, ans);
      HedgeAnswered(t, f, buyFilled, leg, req, ans);
      var sent := t.(orders := t.orders + [row]);
      WorkingFacts();
      hide Valid, Working, TradeOk, Naked, Closes, Bounded, WithinOrder, ResultOf, Honest, Answered, NewRow, HedgedFills;
      ok := CommitOrders(t, t.orders + [row], f);
      WorkingFacts();
      if !ok { return; }
      Execute(sent, f, f');
      ok := CommitOrders(sent, t.orders + [Answered(row, res)], f');
      WorkingFacts();
    }

    // Exactly one leg filled: try to close it on the venue that filled.
    method MarketOut(t: Trade, buyFilled: bool, leg: OrderResult, book: Option<Book>, venue: Venue, ghost f: Fills)
      returns (ok: bool)
      requires Working(t, f) && Naked(t, f, buyFilled, leg) && Bounded(venue)
      modifies this`opps, this`trades, this`commitsLeft, this`fills
      ensures Valid()
      ensures Others(old(trades), trades)
      ensures Last(trades).oppId == t.oppId
      ensures OtherOpps(old(opps), opps, t.oppId)
      ensures ok == (old(commitsLeft) >= if book.None? then 1 else 3)
      ensures ok ==> Last(trades) == Closeout(t, buyFilled, leg, book, venue, cfg.slippagePct)
      ensures ok ==> fills != [] && Last(fills) == CloseoutFills(f, buyFilled, leg, book, venue, cfg.slippagePct)
    {
      hide *;
      if book.None? {
        StuckWithoutOrder(t, f, buyFilled, leg);
        CloseoutWithoutBook(t, f, buyFilled, leg, venue, cfg.slippagePct);
        WorkingFacts();
        ok := MarkStuck(t, f);
        return;
      }
      var req := HedgeOrder(buyFilled, leg, book.value, cfg.slippagePct);
      var res := ResultOf(venue(req));
      var answered, pnl := OutAnswered(t, req, res), HedgePnl(buyFilled, leg, res);
      CloseoutWithBook(t, f, buyFilled, leg, book.value, venue, cfg.slippagePct);
      NakedFacts(t, f, buyFilled, leg);
      ClosesInFull(req, buyFilled, leg);
      BoundedAnswer(venue, req);
      HedgeAnswered(t, f, buyFilled, leg, req, venue(req));
      ghost var f';
      ok, res, f' := SendOut(t, buyFilled, leg, req, venue, f);
      if !ok {
        SameOpps(opps, t.oppId);
        return;
      }
      ghost var between := trades;
      WorkingFacts();
      HedgeStages(answered, f', pnl);
      if LegOk(res) {
        ok := CommitHedged(answered, pnl, f');
      } else {
        ok := MarkStuck(answered, f');
      }
      OthersChain(old(trades), between, trades);
    }

    method CommitFilled(t: Trade, pnl: real, ghost f: Fills) returns (ok: bool)
      requires Working(t, f) && TradeOk(FilledTrade(t, pnl), f)
      modifies this`opps, this`trades, this`commitsLeft
      ensures Valid()
      ensures ok == (old(commitsLeft) >= 1) && commitsLeft == old(commitsLeft) - (if ok then 1 else 0)
      ensures Others(old(trades), trades) && OtherOpps(old(opps), opps, t.oppId)
      ensures Last(trades) == if ok then FilledTrade(t, pnl) else t
    {
      WorkingFacts();
      hide Valid, Working, TradeOk;
      ok := Commit(t, FilledTrade(t, pnl), Opportunity(Executed, None), f);
    }

    method CommitFailed(t: Trade, ghost f: Fills) returns (ok: bool)
      requires Working(t, f) && TradeOk(FailedTrade(t), f)
      modifies this`opps, this`trades, this`commitsLeft
      ensures Valid()
      ensures ok == (old(commitsLeft) >= 1) && commitsLeft == old(commitsLeft) - (if ok then 1 else 0)
      ensures Others(old(trades), trades) && OtherOpps(old(opps), opps, t.oppId)
      ensures Last(trades) == if ok then FailedTrade(t) else t
    {
      WorkingFacts();
      hide Valid, Working, TradeOk;
      ok := Commit(t, FailedTrade(t), Opportunity(OppStatus.Rejected, Some(BothLegsFailed)), f);
    }

    method MarkHedging(t: Trade, ghost f: Fills) returns (ok: bool)
      requires Working(t, f) && TradeOk(t.(status := TradeStatus.Hedging), f)
      modifies this`opps, this`trades, this`commitsLeft
      ensures ok == (old(commitsLeft) >= 1) && commitsLeft == old(commitsLeft) - (if ok then 1 else 0)
      ensures Working(if ok then t.(status := TradeStatus.Hedging) else t, f)
      ensures Valid() && Last(trades).oppId == t.oppId
      ensures Others(old(trades), trades) && OtherOpps(old(opps), opps, t.oppId) && opps == old(opps)
    {
      WorkingFacts();
      hide TradeOk, RowsOk, RiskOk;
      assert opps[t.oppId := Opportunity(Approved, None)] == opps;
      ok := Commit(t, t.(status := TradeStatus.Hedging), Opportunity(Approved, None), f);
    }

    method DispatchOutcome(t: Trade, buyRes: OrderResult, sellRes: OrderResult, buyFee: real, sellFee: real,
                           hedgeBook: Option<Book>, hedgeVenue: Venue, ghost f: Fills)
      returns (ok: bool)
      requires Working(t, f) && Answered2(t, f, buyRes, sellRes) && Bounded(hedgeVenue)
      requires buyFee == t.terms.contract.buyFee && sellFee == t.terms.contract.sellFee
      modifies this`opps, this`trades, this`commitsLeft, this`fills
      ensures Valid()
      ensures Others(old(trades), trades) && OtherOpps(old(opps), opps, t.oppId)
      ensures Last(trades).oppId == t.oppId
      ensures old(commitsLeft) >= 4 ==> ok
      ensures ok ==>
        && Last(trades) == Resolution(t, buyRes, sellRes, buyFee, sellFee, hedgeBook, hedgeVenue, cfg.slippagePct)
        && fills != [] && Last(fills) == ResolvedFills(f, buyRes, sellRes, hedgeBook, hedgeVenue, cfg.slippagePct)
    {
      var buyOk, sellOk := LegOk(buyRes), LegOk(sellRes);
      var pnl := NetPnl(buyRes, sellRes, buyFee, sellFee);
      DispatchStages(t, f, buyRes, sellRes, pnl);
      WorkingFacts();
      ResolutionCases(t, f, buyRes, sellRes, buyFee, sellFee, hedgeBook, hedgeVenue, cfg.slippagePct);
      if buyOk && sellOk {
        hide *;
        ok := CommitFilled(t, pnl, f);
      } else if buyOk != sellOk {
        BecomesNaked(t, f, buyRes, sellRes);
        hide *;
        ok := MarkHedging(t, f);
        if !ok {
          return;
        }
        ok := MarketOut(t.(status := TradeStatus.Hedging), buyOk, if buyOk then buyRes else sellRes,
                        hedgeBook, hedgeVenue, f);
      } else {
        hide *;
        ok := CommitFailed(t, f);
      }
    }

    // Opens the trade, places both legs and deals with the outcome.
    method TradeNow(id: nat, walked: WalkedTrade, w: World) returns (ok: bool, ghost traded: bool)
      requires Valid() && id in opps && opps[id].status == Pending && Sound(walked, TermsIn(walked, w).contract)
      requires clock <= w.checkedAt <= w.openedAt && KillReason(false, limits, trades, w.checkedAt).None?
      requires VenuesBounded(w)
      modifies this
      ensures Valid() && OtherOpps(old(opps), opps, id) && clock <= w.openedAt
      ensures if traded then Appended(old(trades), trades, id) else trades == old(trades)
      ensures traded <==> old(commitsLeft) >= 1
      ensures old(commitsLeft) >= 9 ==> ok
      ensures ok ==>
        && traded
        && Last(trades) == FinalRow(id, walked, w, cfg.slippagePct)
        && fills != [] && Last(fills) == FinalFills(walked, w, cfg.slippagePct)
    {
      var t := Opened(id, TermsIn(walked, w), w.openedAt);
      var buyReq, sellReq := BuyOrder(walked), SellOrder(walked);
      OpenedIsOk(t);
      FinalRowIs(id, walked, w, cfg.slippagePct);
      hide TradeOk, RowsOk, RiskOk, KillReason, FinalRow, FinalFills, Resolution, ResolvedFills, BuyOrder, SellOrder, LegRows,
        LegFills, OtherOpps, Answered2, Sound, ContractAt;
      ok := OpenTrade(id, TermsIn(walked, w), w.checkedAt, w.openedAt);
      traded := ok;
      if !ok {
        SameOpps(opps, id);
        return;
      }
      assert Working(t, Fills(0.0, 0.0, 0.0, true));
      assert OtherOpps(old(opps), opps, id) by { OneOpp(old(opps), id, Opportunity(Approved, None)); }
      assert Fresh(t);
      hide Valid, Working, Opened, Legs, Fresh, TermsIn;
      var buyRes, sellRes: OrderResult;
      ghost var f;
      ok, buyRes, sellRes, f := PlaceLegs(t, buyReq, sellReq, w.buyVenue, w.sellVenue);
      if !ok {
        return;
      }
      ghost var between := opps;
      ok := DispatchOutcome(t.(orders := LegRows(buyReq, sellReq, buyRes, sellRes)), buyRes, sellRes,
                            w.buyInst.takerFee, w.sellInst.takerFee, w.hedgeBook, w.hedgeVenue, f);
      OppsChain(old(opps), between, opps, id);
    }

    // One pending opportunity, start to finish.  It is turned down for the first reason that applies,
    // and otherwise sized and traded.  `ok` is false when an exception cuts it short.
    method Process(id: nat, w: World)
      returns (ok: bool, ghost authorised: Option<WalkedTrade>, ghost sized: Option<Result<WalkedTrade, Rejection>>)
      requires Valid() && id in opps && opps[id].status == Pending
      requires Plausible(w) && VenuesBounded(w) && clock <= w.checkedAt
      modifies this
      ensures Valid()
      ensures OtherOpps(old(opps), opps, id) && clock <= w.openedAt
      ensures authorised.None? ==> trades == old(trades)
      ensures authorised.Some? ==>
        && Appended(old(trades), trades, id)
        && KillReason(w.killFile, limits, old(trades), w.checkedAt).None? && Blocked(w, cfg.maxDaysToExpiry).None?
        && AuthorisedIn(authorised.value, cfg, w)
      ensures w.commits >= 9 ==> ok
      ensures w.commits == 0 ==> !ok
      ensures ok && authorised.Some? ==>
        && Last(trades) == FinalRow(id, authorised.value, w, cfg.slippagePct)
        && fills != [] && Last(fills) == FinalFills(authorised.value, w, cfg.slippagePct)
      ensures sized.Some? <==> KillReason(w.killFile, limits, old(trades), w.checkedAt).None? && Blocked(w, cfg.maxDaysToExpiry).None?
      ensures sized.Some? ==> SizedIn(sized.value, cfg, w)
      ensures w.commits >= 1 ==> opps[id].status != Pending
      ensures w.commits >= 1 && sized.None? ==>
        var killed := KillReason(w.killFile, limits, old(trades), w.checkedAt);
        opps[id] == Opportunity(OppStatus.Rejected, if killed.Some? then killed else Blocked(w, cfg.maxDaysToExpiry))
      ensures w.commits >= 1 && sized.Some? && sized.value.Err? ==>
        opps[id] == Opportunity(OppStatus.Rejected, Some(sized.value.error))
      ensures w.commits >= 1 && sized.Some? && sized.value.Ok? ==> authorised == Some(sized.value.value)
    {
      authorised, sized := None, None;
      commitsLeft := w.commits;
      var killed := KillReason(w.killFile, limits, trades, w.checkedAt);
      KillReasonFacts(w.killFile, limits, trades, w.checkedAt);
      hide KillReason, RowsOk, RiskOk, Bounded, Authorised, FinalRow, FinalFills, Verdict, Sound;
      if killed.Some? {
        ok := Reject(id, killed.value);
        return;
      }
      var blocked := Blocked(w, cfg.maxDaysToExpiry);
      if blocked.Some? {
        ok := Reject(id, blocked.value);
        return;
      }
      var walked := WalkAndVerify(cfg, w.buyBook, w.sellBook, w.buyInst, w.sellInst, w.expiry, w.pricedAt,
                                  BuyAvail(w), SellAvail(w));
      VerdictFacts(walked, cfg, w.buyBook, w.sellBook, w.buyInst, w.sellInst, w.expiry, w.pricedAt, BuyAvail(w),
                   SellAvail(w));
      sized := Some(walked);
      if walked.Err? {
        ok := Reject(id, walked.error);
        return;
      }
      AuthorisedTerms(walked.value, cfg, w);
      ghost var traded;
      ok, traded := TradeNow(id, walked.value, w);
      if traded {
        authorised := Some(walked.value);
        TradedIsNotPending(opps, trades, fills, id);
      }
    }

    // The pending opportunities the query returned, in its order.  The first exception ends the tick:
    // `done` of them were dealt with, and those after the one it struck are as they were.
    method Tick(pending: seq<nat>, worlds: seq<World>) returns (done: nat)
      requires Valid() && |pending| == |worlds|
      requires forall i :: 0 <= i < |pending| ==> pending[i] in opps && opps[pending[i]].status == Pending
      requires forall i, j :: 0 <= i < j < |pending| ==> pending[i] != pending[j]
      requires forall i :: 0 <= i < |worlds| ==>
        Plausible(worlds[i]) && VenuesBounded(worlds[i]) && clock <= worlds[i].checkedAt
      requires forall i, j :: 0 <= i < j < |worlds| ==> worlds[i].openedAt <= worlds[j].checkedAt
      modifies this
      ensures Valid()
      ensures done <= |pending|
      ensures (forall i :: 0 <= i < |pending| ==> worlds[i].commits >= 9) ==> done == |pending|
      ensures OnlyThese(old(opps), opps, Tried(pending, done))
      ensures TradesFor(old(trades), trades, Tried(pending, done))
      ensures Handled(opps, pending, done)
    {
      hide *;
      done := 0;
      NoneTried(opps, trades, pending);
      while done < |pending|
        invariant done <= |pending|
        invariant Valid() && (done < |worlds| ==> clock <= worlds[done].checkedAt)
        invariant OnlyThese(old(opps), opps, pending[..done])
        invariant TradesFor(old(trades), trades, pending[..done])
        invariant Handled(opps, pending, done)
      {
        ghost var opps0, trades0 := opps, trades;
        StillPending(old(opps), opps, pending, done);
        AllTried(pending, done);
        var ok, _, _ := Process(pending[done], worlds[done]);
        OneMoreTried(old(opps), opps0, opps, pending, done);
        OneMoreTrade(old(trades), trades0, trades, pending, done);
        if !ok {
          return;
        }
        done := done + 1;
      }
      AllTried(pending, done);
    }
  }
}

// Orders, instruments and the reasons an opportunity can be turned down
// (backend/src/option_arb/exchanges/base.py, services/executor.py).
module Orders {
  import opened OptionEconomics

  datatype Side = Buy | Sell

  datatype OrderStatus = Placing | Filled | Partial | Rejected | Cancelled

  datatype OrderRequest = OrderRequest(side: Side, size: real, limitPrice: real)

  // A venue's answer; `status` is never Placing in an answer.
  datatype OrderResult = OrderResult(status: OrderStatus, filledSize: real, filledPrice: real)

  // An answer counts as a fill only under these two statuses and with a positive size.
  predicate LegOk(r: OrderResult) {
    (r.status == Filled || r.status == Partial) && r.filledSize > 0.0
  }

  datatype Instrument = Instrument(
    underlying: string,
    strike: real,
    optionType: OptionType,
    takerFee: real,
    minTradeAmount: real)

  datatype Rejection =
    | KillSwitchFile
    | MaxPositionsOpen(active: nat)
    | MaxDailyLoss(dailyPnl: real)
    | ExpiryInvalid
    | ExpiryTooFar
    | TradingDisabled
    | UnknownExchange
    | InstrumentMetadataMissing
    | StaleBook
    | InsufficientBuyFunds
    | MarginUnavailable
    | EmptyBook
    | AprDropped
    | SizeTooSmall
    | ProfitTooSmall
    | SizeBelowMinimum
    | InsufficientSellFunds
    | BothLegsFailed
}

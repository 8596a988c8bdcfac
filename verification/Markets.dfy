/** The market record and its copy-with-changes operations. */
module Markets {
  import opened Prelude

  datatype TradingStatus = Candidate | Eligible | Paused | Closed | Resolved | Rejected

  datatype Market = Market(
    conditionId: string,
    slug: string,
    eventSlug: Option<string>,
    tokens: seq<string>,
    tickSize: real,
    minOrderSize: real,
    feesEnabled: Option<bool>,
    makerBaseFee: Option<int>,
    takerBaseFee: Option<int>,
    feeRate: Option<int>,         // per mille, despite the source's name
    feeRateUpdatedAt: Option<int>,
    status: TradingStatus,
    rejectReason: Option<string>
  )

  /** The updates the registry applies to a market it already holds. */
  datatype MarketUpdate =
    | SetStatus(status: TradingStatus, reason: Option<string>)
    | SetTickSize(tick: real)
    | SetMinOrderSize(size: real)
    | SetFeeSchedule(enabled: Option<bool>, maker: Option<int>, taker: Option<int>)
    | SetFeeRate(rate: Option<int>, at: Option<int>)

  function Apply(m: Market, u: MarketUpdate): Market {
    match u
    case SetStatus(status, reason) => m.(status := status, rejectReason := reason)
    case SetTickSize(tick) => m.(tickSize := tick)
    case SetMinOrderSize(size) => m.(minOrderSize := size)
    case SetFeeSchedule(enabled, maker, taker) =>
      var base := if taker.None? then m.takerBaseFee else taker;
      m.(feesEnabled := if enabled.None? then m.feesEnabled else enabled,
         makerBaseFee := if maker.None? then m.makerBaseFee else maker,
         takerBaseFee := base,
         feeRate := if taker.None? then m.feeRate else base,
         feeRateUpdatedAt := if taker.None? then m.feeRateUpdatedAt else None)
    case SetFeeRate(rate, at) => m.(feeRate := rate, feeRateUpdatedAt := if at.None? then m.feeRateUpdatedAt else at)
  }

  /** An update moves what it names to what it says and nothing that identifies the market; only the fee updates touch
      the fees. */
  lemma UpdateTouchesOnly(m: Market, u: MarketUpdate)
    ensures var n := Apply(m, u);
      && n.conditionId == m.conditionId && n.slug == m.slug && n.eventSlug == m.eventSlug && n.tokens == m.tokens
      && n.tickSize == (if u.SetTickSize? then u.tick else m.tickSize)
      && n.minOrderSize == (if u.SetMinOrderSize? then u.size else m.minOrderSize)
      && (n.status, n.rejectReason) == (if u.SetStatus? then (u.status, u.reason) else (m.status, m.rejectReason))
      && (!u.SetFeeSchedule? && !u.SetFeeRate? ==>
            && n.feesEnabled == m.feesEnabled && n.makerBaseFee == m.makerBaseFee && n.takerBaseFee == m.takerBaseFee
            && n.feeRate == m.feeRate && n.feeRateUpdatedAt == m.feeRateUpdatedAt)
  {}
}

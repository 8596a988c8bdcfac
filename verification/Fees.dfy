/** The venue's trade fee: a rate on size * price * (1 - price), rounded half up to five decimals. */
module Fees {
  import opened Prelude
  import opened RealFacts
  import opened Kelly
  import opened Markets

  const QUANTUM := 0.00001

  /** Decimal's ROUND_HALF_UP to a quantum: the nearest multiple, ties away from zero. */
  function RoundHalfUp(v: real): real {
    if v >= 0.0 then (v / QUANTUM + 0.5).Floor as real * QUANTUM
    else -((-v / QUANTUM + 0.5).Floor as real * QUANTUM)
  }

  function Quanta(n: int): real { n as real * QUANTUM }

  lemma FloorNear(x: real)
    ensures x - 0.5 <= (x + 0.5).Floor as real <= x + 0.5 && (x + 0.5).Floor as real > x - 0.5
  {}

  /** Rounding moves a value by at most half a quantum and never across zero. */
  lemma RoundingError(v: real)
    ensures -QUANTUM / 2.0 <= RoundHalfUp(v) - v <= QUANTUM / 2.0
    ensures (v >= 0.0 ==> RoundHalfUp(v) >= 0.0) && (v <= 0.0 ==> RoundHalfUp(v) <= 0.0)
    ensures exists n: int :: RoundHalfUp(v) == Quanta(n)
  {
    var x := (if v >= 0.0 then v else -v) / QUANTUM;
    FloorNear(x);
    var n := (x + 0.5).Floor;
    assert RoundHalfUp(v) == Quanta(if v >= 0.0 then n else -n);
  }

  /** Among the multiples of the quantum no other is nearer. */
  lemma RoundingNearest(v: real, n: int)
    ensures AbsReal(RoundHalfUp(v) - v) <= AbsReal(Quanta(n) - v)
  {
    RoundingError(v);
    var m: int :| RoundHalfUp(v) == Quanta(m);
    if n != m {
      assert n <= m - 1 || n >= m + 1;
    }
  }

  datatype Role = Maker | Taker

  datatype TradeSide = BuySide | SellSide

  datatype FeeQuote = FeeQuote(price: real, size: real, rate: int, usdc: real, shares: Option<real>)

  datatype FeeResult = Quoted(quote: FeeQuote) | Raised(message: string)

  function EffectiveRate(feeRate: Option<int>, enabled: Option<bool>, role: Role): int {
    if enabled != Some(false) && role == Taker && feeRate.Some? && feeRate.value > 0 then feeRate.value else 0
  }

  function PerMille(rate: int): real { rate as real / 1000.0 }

  function ExactFee(size: real, rate: real, price: real): real { size * rate * price * (1.0 - price) }

  function TradeFee(price: real, size: real, side: TradeSide, feeRate: Option<int>, enabled: Option<bool>, role: Role): FeeResult {
    if price < 0.0 || price > 1.0 then Raised("price must be within [0, 1]")
    else if size < 0.0 then Raised("size_shares must be >= 0")
    else
      var rate := EffectiveRate(feeRate, enabled, role);
      var usdc := RoundHalfUp(ExactFee(size, PerMille(rate), price));
      Quoted(FeeQuote(price, size, rate, usdc,
        if side == SellSide then None else if price == 0.0 then Some(0.0) else Some(RoundHalfUp(usdc / price))))
  }

  lemma QuotedFee(price: real, size: real, side: TradeSide, feeRate: Option<int>, enabled: Option<bool>, role: Role)
    requires 0.0 <= price <= 1.0 && size >= 0.0
    ensures var fee := TradeFee(price, size, side, feeRate, enabled, role);
      fee.Quoted? && fee.quote.usdc == RoundHalfUp(ExactFee(size, PerMille(EffectiveRate(feeRate, enabled, role)), price))
  {
    hide RoundHalfUp, EffectiveRate, ExactFee, PerMille;
  }

  lemma SameRate(rate: int, enabled: bool)
    ensures PerMille(EffectiveRate(Some(rate), Some(enabled), Taker)) == Rate(rate, enabled)
  {}

  /** The sizing's fee per share, times the size, is the venue's fee up to half a quantum. */
  lemma FeesAgree(price: real, size: real, side: TradeSide, rate: int, enabled: bool)
    requires 0.0 < price < 1.0 && size >= 0.0
    ensures var fee := TradeFee(price, size, side, Some(rate), Some(enabled), Taker);
      fee.Quoted? && AbsReal(size * FeePerShare(price, rate, enabled) - fee.quote.usdc) <= 0.000005
  {
    hide FeePerShare, Rate, RoundHalfUp, TradeFee, EffectiveRate, ExactFee, PerMille;
    QuotedFee(price, size, side, Some(rate), Some(enabled), Taker);
    SameRate(rate, enabled);
    ExactFeePerShare(price, size, rate, enabled);
    RoundingError(ExactFee(size, Rate(rate, enabled), price));
  }

  lemma ExactFeePerShare(price: real, size: real, rate: int, enabled: bool)
    requires 0.0 < price < 1.0
    ensures ExactFee(size, Rate(rate, enabled), price) == size * FeePerShare(price, rate, enabled)
  {
    hide FeePerShare, Rate;
    FeeRange(price, rate, enabled);
    Reassociate(size, Rate(rate, enabled), price, 1.0 - price);
  }

  lemma Reassociate(a: real, b: real, c: real, d: real)
    ensures a * b * c * d == a * (b * c * d)
  {
    assert a * b * c == a * (b * c);
    assert a * (b * c) * d == a * (b * c * d);
  }

  /** The rate a market charges takers: none when fees are off, else the override, else the base rate. */
  function TakerRate(m: Market): Option<int> {
    if m.feesEnabled == Some(false) then Some(0)
    else if m.feeRate.Some? then m.feeRate
    else m.takerBaseFee
  }

  /** A new base rate is charged from then on, whatever override stood; a schedule without one leaves the rate as it was
      unless it turns fees on or off; an override is charged until it is taken back, and then the base again. */
  lemma ChargedAfterUpdate(m: Market, u: MarketUpdate)
    requires u.SetFeeSchedule? || u.SetFeeRate?
    ensures var n := Apply(m, u);
      && (n.feesEnabled == Some(false) ==> TakerRate(n) == Some(0))
      && (n.feesEnabled != Some(false) && m.feesEnabled != Some(false) ==>
            && (u.SetFeeSchedule? && u.taker.Some? ==> TakerRate(n) == u.taker && n.feeRateUpdatedAt == None)
            && (u.SetFeeSchedule? && u.taker.None? ==> TakerRate(n) == TakerRate(m) && n.feeRateUpdatedAt == m.feeRateUpdatedAt)
            && (u.SetFeeRate? ==> TakerRate(n) == if u.rate.Some? then u.rate else m.takerBaseFee))
      && (u.SetFeeSchedule? ==>
            && (u.enabled.Some? ==> n.feesEnabled == u.enabled) && (u.enabled.None? ==> n.feesEnabled == m.feesEnabled)
            && (u.maker.Some? ==> n.makerBaseFee == u.maker) && (u.maker.None? ==> n.makerBaseFee == m.makerBaseFee))
      && (u.SetFeeRate? ==>
            && n.feesEnabled == m.feesEnabled && n.makerBaseFee == m.makerBaseFee && n.takerBaseFee == m.takerBaseFee
            && (u.at.Some? ==> n.feeRateUpdatedAt == u.at) && (u.at.None? ==> n.feeRateUpdatedAt == m.feeRateUpdatedAt))
  {}

  /** A buyer pays shares: the fee over the price to the nearest quantum; a seller pays money only; and a maker, an
      unknown rate or a market without fees costs nothing. */
  lemma FeeInShares(price: real, size: real, feeRate: Option<int>, enabled: Option<bool>, role: Role)
    requires 0.0 < price <= 1.0 && size >= 0.0
    ensures var buy, sell := TradeFee(price, size, BuySide, feeRate, enabled, role), TradeFee(price, size, SellSide, feeRate, enabled, role);
      && buy.Quoted? && sell.Quoted? && buy.quote.usdc == sell.quote.usdc && sell.quote.shares == None
      && buy.quote.shares.Some? && AbsReal(buy.quote.shares.value - buy.quote.usdc / price) <= 0.000005
      && (role == Maker || feeRate.None? || enabled == Some(false) ==> buy.quote.usdc == 0.0 && buy.quote.rate == 0)
  {
    hide RoundHalfUp, EffectiveRate, ExactFee, PerMille;
    if role == Maker || feeRate.None? || enabled == Some(false) {
      NoRateNoFee(price, size, feeRate, enabled, role);
    }
    RoundingError(TradeFee(price, size, BuySide, feeRate, enabled, role).quote.usdc / price);
  }

  lemma NoRateNoFee(price: real, size: real, feeRate: Option<int>, enabled: Option<bool>, role: Role)
    requires role == Maker || feeRate.None? || enabled == Some(false)
    ensures EffectiveRate(feeRate, enabled, role) == 0
    ensures RoundHalfUp(ExactFee(size, PerMille(0), price)) == 0.0
  {
    assert size * PerMille(0) == 0.0;
    assert (0.5).Floor == 0;
  }
}

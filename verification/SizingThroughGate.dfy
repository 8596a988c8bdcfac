/** Sizing and gate together: a stake the sizing accepts is one the gate lets through. */
module SizingThroughGate {
  import opened Prelude
  import opened Markets
  import opened RealFacts
  import opened Kelly
  import opened Fees
  import opened RiskModel

  /** The accepted stake sent as a fill-and-kill buy at the price it was sized for. */
  function KellyRequest(q: Sizing, m: Market, hints: Hints, balance: Option<real>, allowance: Option<real>, invested: Option<real>): Request {
    Request(BuyIntent(m.conditionId, "", q.price, KellyStake(q).usdc, Fak, false), Some(m), None, hints,
            balance, allowance, invested, Some(q.bankroll))
  }

  /** The market's own rate is the one the stake was sized with. */
  predicate SameFeeRate(q: Sizing, m: Market) {
    PerMille(EffectiveRate(TakerRate(m), m.feesEnabled, Taker)) == Rate(q.feeRate, q.feesEnabled)
  }

  lemma FeeOfAmount(amount: real, price: real, r: real)
    requires price > 0.0
    ensures ExactFee(amount / price, r, price) == amount * (r * (1.0 - price))
  {
    var size := amount / price;
    DivMul(amount, price);
    assert size * price == amount;
    assert size * r * price * (1.0 - price) == size * price * (r * (1.0 - price)) by {
      var rest := 1.0 - price;
      assert size * r * price == size * price * r;
      assert size * price * r * rest == size * price * (r * rest);
    }
  }

  lemma RoundingKeepsOrder(v: real, bound: real)
    requires v <= bound
    ensures RoundHalfUp(v) <= bound + 0.000005
  {
    RoundingError(v);
    hide RoundHalfUp;
  }

  /** What a taker buy is estimated to pay on top is at most its money times the rate, and half a quantum. */
  lemma EstimateBounded(i: OrderIntent, m: Market, r: real)
    requires i.BuyIntent? && i.amount >= 0.0 && 0.0 < i.price < 1.0
    requires r >= 0.0 && PerMille(EffectiveRate(TakerRate(m), m.feesEnabled, Taker)) == r
    ensures var e := EstimatedFee(i, Some(m));
      e.Estimated? && e.fee <= i.amount * r + 0.000005
  {
    var size := i.amount / i.price;
    DivLe(0.0, i.amount, i.price);
    DivMul(0.0, i.price);
    MulNonNegative(i.amount, r);
    hide RoundHalfUp, ExactFee, PerMille, EffectiveRate;
    FeeOfAmount(i.amount, i.price, r);
    MulLe(1.0 - i.price, 1.0, r);
    MulLe(r * (1.0 - i.price), r, i.amount);
    RoundingKeepsOrder(ExactFee(size, r, i.price), i.amount * r);
    QuotedFee(i.price, size, BuySide, TakerRate(m), m.feesEnabled, Taker);
    hide TradeFee, TakerRate;
  }

  /** With the portfolio plus the cap within the bankroll, and the cap with its fee and half a fee quantum
      within balance and allowance, every accepted stake passes all four gates on
      an eligible market that no hint of the caller's opposes. */
  lemma AcceptedStakePassesGate(q: Sizing, m: Market, hints: Hints, balance: Option<real>, allowance: Option<real>, invested: Option<real>)
    requires KellyStake(q).rejected.None? && q.maxFraction >= 0.0 && q.minStake >= 0.0
    requires m.status == Eligible && NoHintOpposes(hints) && SameFeeRate(q, m)
    requires PortfolioTotal(invested) + EffectiveCap(q.bankroll, q.maxFraction, q.overbetRatio) <= q.bankroll
    requires var need := (1.0 + Rate(q.feeRate, q.feesEnabled)) * EffectiveCap(q.bankroll, q.maxFraction, q.overbetRatio) + 0.000005;
      (balance.Some? ==> need <= balance.value) && (allowance.Some? ==> need <= allowance.value)
    ensures var out := Review(KellyRequest(q, m, hints, balance, allowance, invested));
      out.Decided? && out.decision.passed
  {
    var r := KellyRequest(q, m, hints, balance, allowance, invested);
    assert MarketPermits(r) && TypePermits(r.intent) by {
      hide KellyStake, EffectiveCap, Rate, MarketPermits;
      EligiblePermitsExactly(r);
    }
    hide KellyStake, Review, MarketPermits, TypePermits, EffectiveCap, SameFeeRate;
    var stake, cap, rate := KellyStake(q).usdc, EffectiveCap(q.bankroll, q.maxFraction, q.overbetRatio), Rate(q.feeRate, q.feesEnabled);
    StakeWithinCap(q);
    RateNonNegative(q.feeRate, q.feesEnabled);
    hide Rate;
    FundsSuffice(r, m, rate, cap);
    PassesExactly(r);
  }

  lemma StakeWithinCap(q: Sizing)
    requires KellyStake(q).rejected.None? && q.maxFraction >= 0.0 && q.minStake >= 0.0
    ensures 0.0 <= KellyStake(q).usdc <= EffectiveCap(q.bankroll, q.maxFraction, q.overbetRatio)
    ensures 0.0 < q.price < 1.0 && q.bankroll > 0.0
  {
    KellyEnvelope(q);
    Accepted(q);
    StakeNonNegative(q);
    hide KellyStake, EffectiveCap, Opening;
  }

  lemma FundsSuffice(r: Request, m: Market, rate: real, cap: real)
    requires r.intent.BuyIntent? && r.market == Some(m) && 0.0 < r.intent.price < 1.0
    requires 0.0 <= r.intent.amount <= cap && rate >= 0.0
    requires PerMille(EffectiveRate(TakerRate(m), m.feesEnabled, Taker)) == rate
    requires r.balance.Some? ==> (1.0 + rate) * cap + 0.000005 <= r.balance.value
    requires r.allowance.Some? ==> (1.0 + rate) * cap + 0.000005 <= r.allowance.value
    ensures FundsPermit(r)
  {
    hide EstimatedFee, PerMille, EffectiveRate;
    EstimateBounded(r.intent, m, rate);
    AmountWithFee(r.intent.amount, rate, cap);
  }

  lemma AmountWithFee(amount: real, rate: real, cap: real)
    requires 0.0 <= amount <= cap && rate >= 0.0
    ensures amount + amount * rate <= (1.0 + rate) * cap
  {
    MulLe(amount, cap, rate);
    assert (1.0 + rate) * cap == cap + cap * rate;
  }
}

/** The funds a buy needs, told from the order's and the market's own fields. */
module FundsNeeded {
  import opened Prelude
  import opened Markets
  import opened RealFacts
  import opened Fees
  import opened RiskModel
  import opened SizingThroughGate

  /** What the market charges takers per unit of size * price * (1 - price): nothing with fees off, else the override
      rate, else the base rate, per mille. */
  function ChargedRate(m: Market): real {
    var rate := if m.feesEnabled == Some(false) then 0 else if m.feeRate.Some? then m.feeRate.value else m.takerBaseFee.GetOr(0);
    if rate > 0 then rate as real / 1000.0 else 0.0
  }

  /** The fee on a taker buy: the charged rate on the money times what the price leaves to one. */
  function TakerFee(m: Market, amount: real, price: real): real { amount * ChargedRate(m) * (1.0 - price) }

  lemma ChargedIsEffective(m: Market)
    ensures PerMille(EffectiveRate(TakerRate(m), m.feesEnabled, Taker)) == ChargedRate(m) >= 0.0
    ensures ChargedRate(m) > 0.0 <==> TakerRate(m).Some? && TakerRate(m).value > 0
  {}

  lemma ChargedEstimate(i: OrderIntent, m: Market)
    requires i.BuyIntent? && !PostOnlyMakerBuy(i) && i.amount >= 0.0 && 0.0 < i.price <= 1.0 && ChargedRate(m) > 0.0
    ensures EstimatedFee(i, Some(m)) == Estimated(RoundHalfUp(ExactFee(i.amount / i.price, ChargedRate(m), i.price)))
  {
    ChargedIsEffective(m);
    DivLe(0.0, i.amount, i.price);
    DivMul(0.0, i.price);
    hide RoundHalfUp, ExactFee, PerMille, EffectiveRate, ChargedRate, TakerRate, TradeFee;
    QuotedFee(i.price, i.amount / i.price, BuySide, TakerRate(m), m.feesEnabled, Taker);
  }

  lemma FeeInFields(m: Market, amount: real, price: real)
    requires price > 0.0
    ensures ExactFee(amount / price, ChargedRate(m), price) == TakerFee(m, amount, price)
  {
    hide ChargedRate, ExactFee;
    FeeOfAmount(amount, price, ChargedRate(m));
    assert amount * (ChargedRate(m) * (1.0 - price)) == amount * ChargedRate(m) * (1.0 - price);
  }

  lemma NothingCharged(i: OrderIntent, m: Market)
    requires i.BuyIntent? && ChargedRate(m) == 0.0
    ensures EstimatedFee(i, Some(m)) == Estimated(0.0) && TakerFee(m, i.amount, i.price) == 0.0
  {
    ChargedIsEffective(m);
    hide ChargedRate, TakerRate, TradeFee;
  }

  /** The gate's estimate is that fee to the nearest quantum. */
  lemma EstimateInFields(i: OrderIntent, m: Market)
    requires i.BuyIntent? && !PostOnlyMakerBuy(i) && i.amount >= 0.0 && 0.0 < i.price <= 1.0
    ensures var e := EstimatedFee(i, Some(m));
      e.Estimated? && AbsReal(e.fee - TakerFee(m, i.amount, i.price)) <= 0.000005
  {
    ChargedIsEffective(m);
    hide RoundHalfUp, ExactFee, PerMille, EffectiveRate, ChargedRate, TakerRate, TakerFee, EstimatedFee;
    if ChargedRate(m) > 0.0 {
      ChargedEstimate(i, m);
      FeeInFields(m, i.amount, i.price);
      RoundingError(TakerFee(m, i.amount, i.price));
    } else {
      NothingCharged(i, m);
    }
  }

  predicate Covers(funds: Option<real>, need: real) { funds.Some? ==> need <= funds.value }

  lemma FundsPermitBetween(r: Request, fee: real)
    requires r.intent.BuyIntent? && EstimatedFee(r.intent, r.market).Estimated?
    requires AbsReal(EstimatedFee(r.intent, r.market).fee - fee) <= 0.000005
    ensures var need := r.intent.amount + fee;
      && (FundsPermit(r) ==> Covers(r.balance, need - 0.000005) && Covers(r.allowance, need - 0.000005))
      && (Covers(r.balance, need + 0.000005) && Covers(r.allowance, need + 0.000005) ==> FundsPermit(r))
  {
    hide EstimatedFee;
  }

  /** A taker buy that passes leaves balance and allowance, where known, of at least the money and the fee, up to half a
      quantum; and with half a quantum to spare neither stops it. */
  lemma TakerBuyNeedsFee(r: Request, m: Market)
    requires r.intent.BuyIntent? && r.market == Some(m) && !(r.intent.orderType == Gtc && r.intent.postOnly)
    requires r.intent.amount >= 0.0 && 0.0 < r.intent.price <= 1.0
    ensures var need := r.intent.amount + TakerFee(m, r.intent.amount, r.intent.price);
      var passed := Review(r).Decided? && Review(r).decision.passed;
      && (passed ==> Covers(r.balance, need - 0.000005) && Covers(r.allowance, need - 0.000005))
      && (Covers(r.balance, need + 0.000005) && Covers(r.allowance, need + 0.000005) ==>
            (passed <==> MarketPermits(r) && BudgetPermits(r) && TypePermits(r.intent)))
  {
    hide Review, MarketPermits, BudgetPermits, FundsPermit, TypePermits, EstimatedFee, TakerFee, Covers, AbsReal;
    PassesExactly(r);
    EstimateInFields(r.intent, m);
    FundsPermitBetween(r, TakerFee(m, r.intent.amount, r.intent.price));
  }

  /** A buy that makes the market, or one on a market that charges takers nothing, needs the money alone. */
  lemma FreeBuyNeedsAmount(r: Request)
    requires r.intent.BuyIntent?
    requires (r.intent.orderType == Gtc && r.intent.postOnly) || r.market.None? || ChargedRate(r.market.value) == 0.0
    ensures (Review(r).Decided? && Review(r).decision.passed) <==>
            MarketPermits(r) && BudgetPermits(r) && TypePermits(r.intent)
            && Covers(r.balance, r.intent.amount) && Covers(r.allowance, r.intent.amount)
  {
    PassesExactly(r);
    if r.market.Some? {
      ChargedIsEffective(r.market.value);
    }
    hide Review, MarketPermits, BudgetPermits, ChargedRate;
  }

  lemma NegativeRatio(a: real, d: real)
    ensures a < 0.0 < d ==> a / d < 0.0
  {}

  /** Where a fee is charged, a taker buy above a price of one never passes, nor one of negative money. */
  lemma OddBuyNeverPasses(r: Request, m: Market)
    requires r.intent.BuyIntent? && r.market == Some(m) && !(r.intent.orderType == Gtc && r.intent.postOnly)
    requires ChargedRate(m) > 0.0 && (r.intent.price > 1.0 || (0.0 < r.intent.price && r.intent.amount < 0.0))
    ensures !(Review(r).Decided? && Review(r).decision.passed)
  {
    PassesExactly(r);
    ChargedIsEffective(m);
    NegativeRatio(r.intent.amount, r.intent.price);
    hide Review, MarketPermits, BudgetPermits, ChargedRate, RoundHalfUp, ExactFee, TakerRate;
  }
}

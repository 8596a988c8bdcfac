/** Small facts about products and quotients of reals. */
module RealFacts {
  lemma MulLe(a: real, b: real, k: real)
    requires a <= b && k >= 0.0
    ensures a * k <= b * k && k * a <= k * b
  {}

  lemma MulNonNegative(a: real, b: real)
    requires a >= 0.0 && b >= 0.0
    ensures a * b >= 0.0
  {}

  lemma MulPositive(a: real, b: real)
    requires a > 0.0 && b > 0.0
    ensures a * b > 0.0
  {}

  /** A product kept as one term: proofs hide its definition and use the laws below. */
  function Times(a: real, b: real): real { a * b }

  lemma TimesLaws(a: real, b: real, c: real)
    ensures Times(a, 0.0) == 0.0 == Times(0.0, a)
    ensures Times(a, b + c) == Times(a, b) + Times(a, c)
    ensures Times(a, b - c) == Times(a, b) - Times(a, c)
    ensures Times(a - b, c) == Times(a, c) - Times(b, c)
    ensures Times(a, b) == Times(b, a)
  {}

  lemma TimesLe(a: real, b: real, k: real)
    requires a <= b && k >= 0.0
    ensures Times(a, k) <= Times(b, k) && Times(k, a) <= Times(k, b)
  {
    MulLe(a, b, k);
  }

  lemma TimesSwap(a: real, b: real, c: real)
    ensures Times(a, Times(b, c)) == Times(b, Times(a, c))
  {
    assert a * (b * c) == b * (a * c);
  }

  lemma DivMul(a: real, d: real)
    requires d != 0.0
    ensures a / d * d == a && a * d / d == a
  {}

  lemma MulLess(x: real, y: real, d: real)
    requires x < y && d > 0.0
    ensures x * d < y * d
  {
    MulPositive(y - x, d);
    assert (y - x) * d == y * d - x * d;
  }

  lemma DivLe(a: real, b: real, d: real)
    requires a <= b && d > 0.0
    ensures a / d <= b / d
  {
    var x, y := a / d, b / d;
    if y < x {
      MulLess(y, x, d);
    }
    DivMul(a, d);
    DivMul(b, d);
  }

  lemma DivByLarger(n: real, d: real, e: real)
    requires n >= 0.0 && 0.0 < e <= d
    ensures n / d <= n / e
  {
    var x, y := n / d, n / e;
    if y < x {
      MulLess(y, x, e);
    }
    DivMul(n, d);
    DivMul(n, e);
    DivLe(0.0, n, d);
    MulLe(e, d, x);
  }

  lemma DivSum(a: real, b: real, d: real)
    requires d != 0.0
    ensures (a + b) / d == a / d + b / d
    ensures (a - b) / d == a / d - b / d
  {
    DivMul(a, d);
    DivMul(b, d);
    assert (a / d + b / d) * d == a / d * d + b / d * d == a + b;
    assert (a / d - b / d) * d == a / d * d - b / d * d == a - b;
    DivMul(a / d + b / d, d);
    DivMul(a / d - b / d, d);
  }
}

/** Kelly sizing of a binary-market buy: what may be staked on a token priced c when its fair value is p. */
module Kelly {
  import opened Prelude
  import opened RealFacts

  datatype Sizing = Sizing(
    bankroll: real,
    price: real,
    fair: real,
    kellyFraction: real,
    confidence: real,
    maxFraction: real,
    minEdge: real,
    minStake: real,
    marketMin: Option<real>,    // the market's minimum order, in shares
    feeRate: int,               // per mille, despite the source's name
    feesEnabled: bool,
    liquidity: Option<real>,
    allowRoundUp: bool,
    overbetRatio: real,
    tick: Option<real>
  )

  datatype Stake = Stake(
    usdc: real,
    fStar: real,
    edge: real,
    edgeGross: real,
    feePerShare: real,
    kappa: real,
    minStake: real,
    cappedBy: Option<string>,
    overbet: bool,
    rejected: Option<string>
  )

  /** The taker rate as a fraction of price * (1 - price). */
  function Rate(feeRate: int, enabled: bool): real {
    if !enabled || feeRate <= 0 then 0.0 else feeRate as real / 1000.0
  }

  function FeePerShare(c: real, feeRate: int, enabled: bool): real {
    if !enabled || feeRate <= 0 then 0.0
    else if c <= 0.0 || c >= 1.0 then 0.0
    else feeRate as real / 1000.0 * c * (1.0 - c)
  }

  function EffectiveMinStake(minStake: real, marketMin: Option<real>, c: real): real {
    if marketMin.Some? && marketMin.value > 0.0 && c > 0.0 && marketMin.value * c > minStake then marketMin.value * c
    else minStake
  }

  /** The cap the sizing and the risk gate share. */
  function EffectiveCap(bankroll: real, maxFraction: real, overbetRatio: real): real {
    if overbetRatio > 1.0 then bankroll * maxFraction * overbetRatio else bankroll * maxFraction
  }

  function PriceMin(tick: Option<real>): real {
    if tick.Some? && tick.value > 0.0 then MaxReal(tick.value, 0.0001) else 0.01
  }

  function PriceMax(tick: Option<real>): real {
    if tick.Some? && tick.value > 0.0 then 1.0 - tick.value else 0.99
  }

  function EarlyReject(q: Sizing): Option<string> {
    if q.bankroll <= 0.0 then Some("bankroll_non_positive")
    else if q.price < PriceMin(q.tick) || q.price > PriceMax(q.tick) then Some("price_out_of_range")
    else if q.fair < 0.0 || q.fair > 1.0 then Some("fair_value_out_of_range")
    else if q.confidence < 0.0 || q.confidence > 1.0 then Some("prob_confidence_out_of_range")
    else None
  }

  function FStar(c: real, p: real, feeRate: int, enabled: bool): real
    requires c != 1.0
  {
    (p - c - FeePerShare(c, feeRate, enabled)) / (1.0 - c)
  }

  function Liquid(liquidity: Option<real>): bool { liquidity.Some? && liquidity.value >= 0.0 }

  function CapRaw(raw: real, cap: real, liquidity: Option<real>): (real, Option<string>) {
    var first: (real, Option<string>) := if raw > cap then (cap, Some("max_position_fraction")) else (raw, None);
    if Liquid(liquidity) && first.0 > liquidity.value then (liquidity.value, Some("liquidity")) else first
  }

  function RoundUpCeiling(relaxed: real, liquidity: Option<real>): real {
    if Liquid(liquidity) then MinReal(relaxed, liquidity.value) else relaxed
  }

  /** Caps the recommendation, and lifts one below the market minimum to it where the relaxed cap allows. */
  function Settle(s: Stake, raw: real, cap: real, relaxed: real, liquidity: Option<real>, allowRoundUp: bool): Stake {
    var (stake, cappedBy) := CapRaw(raw, cap, liquidity);
    if stake >= s.minStake then s.(usdc := stake, cappedBy := cappedBy)
    else if !allowRoundUp then s.(cappedBy := cappedBy, rejected := Some("kelly_below_market_min_no_round_up"))
    else if s.minStake > RoundUpCeiling(relaxed, liquidity) then
      s.(cappedBy := cappedBy, rejected := Some("bankroll_too_small_for_market_min"))
    else s.(usdc := s.minStake, cappedBy := Some("rounded_up_to_market_min"), overbet := s.minStake > raw)
  }

  function Kappa(q: Sizing): real { q.kellyFraction * q.confidence }

  /** The quote before any stake is settled. */
  function Opening(q: Sizing): Stake
    requires q.price != 1.0
  {
    var fee := FeePerShare(q.price, q.feeRate, q.feesEnabled);
    Stake(0.0, FStar(q.price, q.fair, q.feeRate, q.feesEnabled), q.fair - q.price - fee, q.fair - q.price, fee, Kappa(q),
          EffectiveMinStake(q.minStake, q.marketMin, q.price), None, false, None)
  }

  function Assess(s: Stake, raw: real, cap: real, relaxed: real, minEdge: real, liquidity: Option<real>, allowRoundUp: bool): Stake {
    if s.edge < minEdge || s.fStar <= 0.0 then s.(rejected := Some("edge_below_min"))
    else Settle(s, raw, cap, relaxed, liquidity, allowRoundUp)
  }

  function Raw(q: Sizing, f: real): real { q.bankroll * Kappa(q) * f }

  function RelaxedCap(q: Sizing): real { EffectiveCap(q.bankroll, q.maxFraction, 1.0) * q.overbetRatio }

  function KellyStake(q: Sizing): Stake {
    if EarlyReject(q).Some? then
      Stake(0.0, 0.0, 0.0, 0.0, 0.0, Kappa(q), EffectiveMinStake(q.minStake, q.marketMin, q.price), None, false, EarlyReject(q))
    else if 1.0 - q.price <= 0.0 then
      var fee := FeePerShare(q.price, q.feeRate, q.feesEnabled);
      Stake(0.0, 0.0, q.fair - q.price - fee, q.fair - q.price, fee, Kappa(q),
            EffectiveMinStake(q.minStake, q.marketMin, q.price), None, false, Some("price_out_of_range"))
    else
      Assess(Opening(q), Raw(q, Opening(q).fStar), EffectiveCap(q.bankroll, q.maxFraction, 1.0), RelaxedCap(q),
             q.minEdge, q.liquidity, q.allowRoundUp)
  }

  // ---- the envelope of an accepted stake ----

  /** Past the range check the price is strictly between 0 and 1, so the later guard on 1 - c never fires. */
  lemma InRangeIsInterior(q: Sizing)
    requires EarlyReject(q).None?
    ensures 0.0 < q.price < 1.0
  {}

  lemma FeeRange(c: real, feeRate: int, enabled: bool)
    requires 0.0 < c < 1.0
    ensures FeePerShare(c, feeRate, enabled) == Rate(feeRate, enabled) * c * (1.0 - c)
    ensures 0.0 <= FeePerShare(c, feeRate, enabled)
  {
    MulNonNegative(Rate(feeRate, enabled), c);
    MulNonNegative(Rate(feeRate, enabled) * c, 1.0 - c);
  }

  /** The growth-optimal fraction is the fee-free one less the rate times the price. */
  lemma FStarForm(c: real, p: real, feeRate: int, enabled: bool)
    requires 0.0 < c < 1.0
    ensures FStar(c, p, feeRate, enabled) == (p - c) / (1.0 - c) - Rate(feeRate, enabled) * c
  {
    var r := Rate(feeRate, enabled);
    FeeRange(c, feeRate, enabled);
    DivSum(p - c, FeePerShare(c, feeRate, enabled), 1.0 - c);
    DivMul(r * c, 1.0 - c);
  }

  lemma FStarAtMostOne(c: real, p: real, feeRate: int, enabled: bool)
    requires 0.0 < c < 1.0 && p <= 1.0
    ensures FStar(c, p, feeRate, enabled) <= 1.0
  {
    FeeRange(c, feeRate, enabled);
    DivLe(p - c - FeePerShare(c, feeRate, enabled), 1.0 - c, 1.0 - c);
    DivMul(1.0, 1.0 - c);
  }

  lemma AssessEnvelope(s: Stake, raw: real, cap: real, relaxed: real, minEdge: real, liquidity: Option<real>, up: bool)
    requires s.rejected.None?
    ensures var n := Assess(s, raw, cap, relaxed, minEdge, liquidity, up);
      n.rejected.None? ==>
        && n.minStake == s.minStake <= n.usdc <= MaxReal(cap, relaxed)
        && (Liquid(liquidity) ==> n.usdc <= liquidity.value)
        && (n.cappedBy != Some("rounded_up_to_market_min") ==> n.usdc <= cap && n.usdc <= raw)
        && n.fStar == s.fStar > 0.0 && n.edge == s.edge >= minEdge && n.kappa == s.kappa
  {}

  /** The accepted quote carries its opening figures and is settled between the minimum and the caps. */
  lemma Accepted(q: Sizing)
    requires KellyStake(q).rejected.None?
    ensures q.bankroll > 0.0 && 0.0 < q.price < 1.0 && 0.0 <= q.fair <= 1.0 && EarlyReject(q).None?
    ensures var s, o := KellyStake(q), Opening(q);
      && o.minStake <= s.usdc <= MaxReal(EffectiveCap(q.bankroll, q.maxFraction, 1.0), RelaxedCap(q))
      && s.minStake == o.minStake && s.fStar == o.fStar > 0.0 && s.edge == o.edge >= q.minEdge
      && (Liquid(q.liquidity) ==> s.usdc <= q.liquidity.value)
      && (s.cappedBy != Some("rounded_up_to_market_min") ==>
            s.usdc <= EffectiveCap(q.bankroll, q.maxFraction, 1.0) && s.usdc <= Raw(q, s.fStar))
  {
    InRangeIsInterior(q);
    AssessEnvelope(Opening(q), Raw(q, Opening(q).fStar), EffectiveCap(q.bankroll, q.maxFraction, 1.0), RelaxedCap(q),
                   q.minEdge, q.liquidity, q.allowRoundUp);
  }

  lemma CapsInOrder(bankroll: real, maxFraction: real, ratio: real)
    requires bankroll >= 0.0 && maxFraction >= 0.0
    ensures MaxReal(EffectiveCap(bankroll, maxFraction, 1.0), EffectiveCap(bankroll, maxFraction, 1.0) * ratio) ==
            EffectiveCap(bankroll, maxFraction, ratio)
  {
    MulNonNegative(bankroll, maxFraction);
    if ratio > 1.0 {
      MulLe(1.0, ratio, bankroll * maxFraction);
    } else {
      MulLe(ratio, 1.0, bankroll * maxFraction);
    }
  }

  /** Every accepted stake covers the minimum, stays within the cap - the relaxed one only after rounding
      up - and within the liquidity. */
  lemma KellyEnvelope(q: Sizing)
    requires KellyStake(q).rejected.None? && q.maxFraction >= 0.0
    ensures var s := KellyStake(q);
      && EffectiveMinStake(q.minStake, q.marketMin, q.price) <= s.usdc
      && s.usdc <= EffectiveCap(q.bankroll, q.maxFraction, q.overbetRatio)
      && (Liquid(q.liquidity) ==> s.usdc <= q.liquidity.value)
      && (s.cappedBy != Some("rounded_up_to_market_min") ==>
            s.usdc <= EffectiveCap(q.bankroll, q.maxFraction, 1.0) && s.usdc <= Raw(q, s.fStar))
  {
    hide FStar, FeePerShare, Raw, EffectiveCap, Kappa, KellyStake;
    Accepted(q);
    CapsInOrder(q.bankroll, q.maxFraction, q.overbetRatio);
  }

  /** The recommendation within the cap and the liquidity. */
  function Recommended(raw: real, cap: real, liquidity: Option<real>): real {
    if Liquid(liquidity) then MinReal(MinReal(raw, cap), liquidity.value) else MinReal(raw, cap)
  }

  lemma AssessClosedForm(s: Stake, raw: real, cap: real, relaxed: real, minEdge: real, liquidity: Option<real>, up: bool)
    requires s.rejected.None? && s.usdc == 0.0 && s.cappedBy.None? && !s.overbet
    ensures var n := Assess(s, raw, cap, relaxed, minEdge, liquidity, up);
      var most := Recommended(raw, cap, liquidity);
      && (n.rejected.None? <==>
            s.edge >= minEdge && s.fStar > 0.0 && (most >= s.minStake || (up && s.minStake <= RoundUpCeiling(relaxed, liquidity))))
      && (n.rejected.Some? ==> n.usdc == 0.0)
      && (n.rejected.None? ==>
            && n.usdc == MaxReal(most, s.minStake)
            && (n.cappedBy == Some("rounded_up_to_market_min") <==> most < s.minStake)
            && (n.cappedBy.None? <==> n.usdc == raw && most >= s.minStake)
            && (n.overbet <==> n.usdc > raw))
  {}

  /** The whole sizing at a glance: a quote past the early checks is accepted exactly when its edge and fraction
      suffice and either the recommendation within cap and liquidity reaches the minimum or it may be lifted to it;
      the stake is then the larger of the two, marked an overbet exactly when it exceeds the raw recommendation. */
  lemma KellyClosedForm(q: Sizing)
    requires EarlyReject(q).None?
    ensures q.price < 1.0
    ensures var s, o := KellyStake(q), Opening(q);
      var raw, cap := Raw(q, o.fStar), EffectiveCap(q.bankroll, q.maxFraction, 1.0);
      var most := Recommended(raw, cap, q.liquidity);
      && (s.rejected.None? <==>
            o.edge >= q.minEdge && o.fStar > 0.0
            && (most >= o.minStake || (q.allowRoundUp && o.minStake <= RoundUpCeiling(RelaxedCap(q), q.liquidity))))
      && (s.rejected.Some? ==> s.usdc == 0.0)
      && (s.rejected.None? ==>
            && s.usdc == MaxReal(most, o.minStake)
            && (s.cappedBy == Some("rounded_up_to_market_min") <==> most < o.minStake)
            && (s.overbet <==> s.usdc > raw))
  {
    InRangeIsInterior(q);
    hide FStar, FeePerShare, EffectiveMinStake, Raw, RelaxedCap, EffectiveCap, Kappa, Assess, EarlyReject, RoundUpCeiling, Recommended;
    AssessClosedForm(Opening(q), Raw(q, Opening(q).fStar), EffectiveCap(q.bankroll, q.maxFraction, 1.0), RelaxedCap(q),
                     q.minEdge, q.liquidity, q.allowRoundUp);
  }

  lemma KellyEdge(q: Sizing)
    requires KellyStake(q).rejected.None?
    ensures KellyStake(q).edge >= q.minEdge
    ensures KellyStake(q).edge == q.fair - q.price - Rate(q.feeRate, q.feesEnabled) * q.price * (1.0 - q.price)
  {
    hide KellyStake, Raw, RelaxedCap, EffectiveCap, Kappa, FStar, EffectiveMinStake;
    Accepted(q);
    FeeRange(q.price, q.feeRate, q.feesEnabled);
    hide Rate, FeePerShare;
  }

  /** Its fraction lies in (0, 1] and is the fee-free fraction less the rate times the price. */
  lemma KellyFraction(q: Sizing)
    requires KellyStake(q).rejected.None?
    ensures q.price != 1.0 && 0.0 < KellyStake(q).fStar <= 1.0
    ensures KellyStake(q).fStar == (q.fair - q.price) / (1.0 - q.price) - Rate(q.feeRate, q.feesEnabled) * q.price
  {
    hide KellyStake, Raw, RelaxedCap, EffectiveCap, Kappa, FStar, FeePerShare, EffectiveMinStake, Rate;
    Accepted(q);
    FStarForm(q.price, q.fair, q.feeRate, q.feesEnabled);
    FStarAtMostOne(q.price, q.fair, q.feeRate, q.feesEnabled);
  }

  // ---- monotonicity ----

  lemma FeeFreeFalls(c: real, d: real, p: real)
    requires 0.0 < c <= d < 1.0 && p <= 1.0
    ensures (p - d) / (1.0 - d) <= (p - c) / (1.0 - c)
  {
    FeeFreeForm(c, p);
    FeeFreeForm(d, p);
    DivByLarger(1.0 - p, 1.0 - c, 1.0 - d);
  }

  lemma FeeFreeForm(c: real, p: real)
    requires c < 1.0
    ensures (p - c) / (1.0 - c) == 1.0 - (1.0 - p) / (1.0 - c)
  {
    DivSum(1.0 - c, 1.0 - p, 1.0 - c);
    DivMul(1.0, 1.0 - c);
    assert (1.0 - c) - (1.0 - p) == p - c;
  }

  /** The fraction never rises with the price. */
  lemma FStarFallsWithPrice(c: real, d: real, p: real, feeRate: int, enabled: bool)
    requires 0.0 < c <= d < 1.0 && p <= 1.0
    ensures FStar(d, p, feeRate, enabled) <= FStar(c, p, feeRate, enabled)
  {
    hide FStar;
    FStarForm(c, p, feeRate, enabled);
    FStarForm(d, p, feeRate, enabled);
    hide Rate;
    FeeFreeFalls(c, d, p);
    var r := Rate(feeRate, enabled);
    assert r >= 0.0 by { RateNonNegative(feeRate, enabled); }
    MulLe(c, d, r);
  }

  lemma RateNonNegative(feeRate: int, enabled: bool)
    ensures Rate(feeRate, enabled) >= 0.0
  {}

  /** The same for whole quotes: among prices that pass the early checks, a dearer one never has the larger f*. */
  lemma QuotedFStarFallsWithPrice(q: Sizing, price: real)
    requires q.price <= price && EarlyReject(q).None? && EarlyReject(q.(price := price)).None?
    ensures KellyStake(q.(price := price)).fStar <= KellyStake(q).fStar
  {
    var r := q.(price := price);
    InRangeIsInterior(q);
    InRangeIsInterior(r);
    FStarFallsWithPrice(q.price, price, q.fair, q.feeRate, q.feesEnabled);
    QuotedFStar(q);
    QuotedFStar(r);
  }

  lemma QuotedFStar(q: Sizing)
    requires EarlyReject(q).None?
    ensures q.price < 1.0 && KellyStake(q).fStar == FStar(q.price, q.fair, q.feeRate, q.feesEnabled)
  {
    InRangeIsInterior(q);
  }

  lemma AssessMonotone(s: Stake, t: Stake, raw: real, more: real, cap: real, larger: real, relaxed: real, looser: real,
                       minEdge: real, liquidity: Option<real>, up: bool)
    requires raw <= more && cap <= larger && relaxed <= looser
    requires s.usdc == t.usdc == 0.0 && s.minStake == t.minStake >= 0.0 && s.rejected.None? && t.rejected.None?
    requires s.edge <= t.edge && (s.fStar > 0.0 ==> t.fStar > 0.0)
    ensures 0.0 <= Assess(s, raw, cap, relaxed, minEdge, liquidity, up).usdc
                <= Assess(t, more, larger, looser, minEdge, liquidity, up).usdc
  {}

  lemma StakeNonNegative(q: Sizing)
    requires q.minStake >= 0.0
    ensures KellyStake(q).usdc >= 0.0
  {
    if KellyStake(q).rejected.None? {
      Accepted(q);
    }
  }

  lemma KappaNonNegative(q: Sizing)
    requires EarlyReject(q).None? && q.kellyFraction >= 0.0
    ensures Kappa(q) >= 0.0
  {
    MulNonNegative(q.kellyFraction, q.confidence);
  }

  lemma RawRises(q: Sizing, r: Sizing, f: real, g: real)
    requires 0.0 <= q.bankroll <= r.bankroll && 0.0 <= Kappa(q) == Kappa(r) && 0.0 < f <= g
    ensures Raw(q, f) <= Raw(r, g)
  {
    hide Kappa;
    MulLe(q.bankroll, r.bankroll, Kappa(q));
    MulNonNegative(q.bankroll, Kappa(q));
    MulLe(f, g, q.bankroll * Kappa(q));
    MulLe(q.bankroll * Kappa(q), r.bankroll * Kappa(q), g);
  }

  lemma FStarRises(c: real, p: real, fair: real, feeRate: int, enabled: bool)
    requires p <= fair && 0.0 < c < 1.0
    ensures FStar(c, p, feeRate, enabled) <= FStar(c, fair, feeRate, enabled)
  {
    hide FeePerShare;
    var fee := FeePerShare(c, feeRate, enabled);
    DivLe(p - c - fee, fair - c - fee, 1.0 - c);
  }

  /** Two quotes at the same price and minimum open on the same terms but for the fair value. */
  lemma OpeningsCompare(q: Sizing, r: Sizing)
    requires 0.0 < q.price < 1.0 && q.minStake >= 0.0 && q.fair <= r.fair
    requires r == q.(fair := r.fair, bankroll := r.bankroll)
    ensures Kappa(q) == Kappa(r)
    ensures Opening(q).usdc == Opening(r).usdc == 0.0 && Opening(q).rejected.None? && Opening(r).rejected.None?
    ensures Opening(q).minStake == Opening(r).minStake >= 0.0
    ensures Opening(q).edge <= Opening(r).edge && Opening(q).fStar <= Opening(r).fStar
  {
    FStarRises(q.price, q.fair, r.fair, q.feeRate, q.feesEnabled);
    assert EffectiveMinStake(q.minStake, q.marketMin, q.price) >= q.minStake;
    hide FStar, FeePerShare, EffectiveMinStake, Kappa;
  }

  lemma AcceptedFrom(q: Sizing)
    requires KellyStake(q).usdc != 0.0
    ensures EarlyReject(q).None? && 0.0 < q.price < 1.0 && q.bankroll > 0.0 && Opening(q).fStar > 0.0
  {}

  lemma StakeRises(q: Sizing, r: Sizing)
    requires 0.0 < q.bankroll <= r.bankroll && r == q.(fair := r.fair, bankroll := r.bankroll)
    requires q.fair <= r.fair && q.kellyFraction >= 0.0 && q.minStake >= 0.0
    requires EarlyReject(q).None? && EarlyReject(r).None? && 0.0 < q.price < 1.0 && Opening(q).fStar > 0.0
    requires EffectiveCap(q.bankroll, q.maxFraction, 1.0) <= EffectiveCap(r.bankroll, q.maxFraction, 1.0)
    requires RelaxedCap(q) <= RelaxedCap(r)
    ensures KellyStake(q).usdc <= KellyStake(r).usdc
  {
    hide FStar, FeePerShare, EffectiveMinStake, Raw, RelaxedCap, EffectiveCap, Kappa, Assess, Opening;
    OpeningsCompare(q, r);
    KappaNonNegative(q);
    RawRises(q, r, Opening(q).fStar, Opening(r).fStar);
    AssessMonotone(Opening(q), Opening(r), Raw(q, Opening(q).fStar), Raw(r, Opening(r).fStar),
      EffectiveCap(q.bankroll, q.maxFraction, 1.0), EffectiveCap(r.bankroll, q.maxFraction, 1.0),
      RelaxedCap(q), RelaxedCap(r), q.minEdge, q.liquidity, q.allowRoundUp);
  }

  /** Across the rejections, the caps and the rounding up, a higher fair value never lowers the stake. */
  lemma StakeRisesWithFairValue(q: Sizing, fair: real)
    requires q.fair <= fair <= 1.0 && q.kellyFraction >= 0.0 && q.minStake >= 0.0
    ensures KellyStake(q).usdc <= KellyStake(q.(fair := fair)).usdc
  {
    hide FStar, FeePerShare, EffectiveMinStake, Raw, EffectiveCap, Kappa, Assess, Opening;
    StakeNonNegative(q.(fair := fair));
    if KellyStake(q).usdc != 0.0 {
      AcceptedFrom(q);
      StakeRises(q, q.(fair := fair));
    }
  }

  lemma CapsRise(q: Sizing, bankroll: real)
    requires q.bankroll <= bankroll && q.maxFraction >= 0.0 && q.overbetRatio >= 0.0
    ensures EffectiveCap(q.bankroll, q.maxFraction, 1.0) <= EffectiveCap(bankroll, q.maxFraction, 1.0)
    ensures RelaxedCap(q) <= RelaxedCap(q.(bankroll := bankroll))
  {
    MulLe(q.bankroll, bankroll, q.maxFraction);
    MulLe(q.bankroll * q.maxFraction, bankroll * q.maxFraction, q.overbetRatio);
  }

  /** A larger bankroll never lowers the stake either. */
  lemma StakeRisesWithBankroll(q: Sizing, bankroll: real)
    requires q.bankroll <= bankroll && q.kellyFraction >= 0.0 && q.minStake >= 0.0
    requires q.maxFraction >= 0.0 && q.overbetRatio >= 0.0
    ensures KellyStake(q).usdc <= KellyStake(q.(bankroll := bankroll)).usdc
  {
    hide FStar, FeePerShare, EffectiveMinStake, Raw, RelaxedCap, EffectiveCap, Kappa, Assess, Opening;
    StakeNonNegative(q.(bankroll := bankroll));
    if KellyStake(q).usdc != 0.0 {
      AcceptedFrom(q);
      CapsRise(q, bankroll);
      StakeRises(q, q.(bankroll := bankroll));
    }
  }

  // ---- the price ----

  /** The net edge falls as the price rises, at any rate up to the whole of price * (1 - price). */
  lemma EdgeFallsWithPrice(c: real, d: real, p: real, feeRate: int, enabled: bool)
    requires 0.0 < c <= d < 1.0 && Rate(feeRate, enabled) <= 1.0
    ensures p - d - FeePerShare(d, feeRate, enabled) <= p - c - FeePerShare(c, feeRate, enabled)
  {
    FeeRange(c, feeRate, enabled);
    FeeRange(d, feeRate, enabled);
    RateNonNegative(feeRate, enabled);
    hide FeePerShare;
    var r := Rate(feeRate, enabled);
    hide Rate;
    CostRises(r, c, d);
  }

  lemma CostRises(r: real, c: real, d: real)
    requires 0.0 <= r <= 1.0 && 0.0 < c <= d < 1.0
    ensures c + r * c * (1.0 - c) <= d + r * d * (1.0 - d)
  {
    var fall := d * d - c * c - (d - c);
    var charged := r * fall;
    assert fall == (c + d - 1.0) * (d - c);
    MulLe(c + d - 1.0, 1.0, d - c);
    assert fall <= d - c;
    assert r * c * (1.0 - c) - r * d * (1.0 - d) == charged by {
      assert r * c * (1.0 - c) == r * c - r * (c * c) && r * d * (1.0 - d) == r * d - r * (d * d);
    }
    if fall > 0.0 {
      MulLe(r, 1.0, fall);
      assert charged <= fall;
    } else {
      MulNonNegative(r, -fall);
      assert r * -fall == -charged;
    }
    assert charged <= d - c;
  }

  lemma MinimumRises(q: Sizing, price: real)
    requires 0.0 < q.price <= price
    ensures EffectiveMinStake(q.minStake, q.marketMin, q.price) <= EffectiveMinStake(q.minStake, q.marketMin, price)
  {
    if q.marketMin.Some? && q.marketMin.value > 0.0 {
      MulLe(q.price, price, q.marketMin.value);
    }
  }

  /** A quote at a higher price opens with no larger fraction and no smaller minimum. */
  lemma DearerOpening(q: Sizing, r: Sizing)
    requires r == q.(price := r.price) && 0.0 < q.price <= r.price < 1.0 && q.fair <= 1.0
    ensures Opening(r).fStar <= Opening(q).fStar && Opening(q).minStake <= Opening(r).minStake
    ensures Rate(q.feeRate, q.feesEnabled) <= 1.0 ==> Opening(r).edge <= Opening(q).edge
    ensures Opening(q).usdc == Opening(r).usdc == 0.0 && Opening(q).rejected.None? && Opening(r).rejected.None?
    ensures Opening(q).minStake >= q.minStake
    ensures Opening(q).cappedBy.None? && !Opening(q).overbet && Opening(r).cappedBy.None? && !Opening(r).overbet
  {
    FStarFallsWithPrice(q.price, r.price, q.fair, q.feeRate, q.feesEnabled);
    MinimumRises(q, r.price);
    assert EffectiveMinStake(q.minStake, q.marketMin, q.price) >= q.minStake;
    if Rate(q.feeRate, q.feesEnabled) <= 1.0 {
      EdgeFallsWithPrice(q.price, r.price, q.fair, q.feeRate, q.feesEnabled);
    }
    hide FStar, FeePerShare, EffectiveMinStake, Kappa, Rate;
  }

  /** Of two quotes that differ in fraction, minimum and edge, the second stakes more exactly when it is accepted and
      its minimum alone exceeds what the first stakes. */
  lemma AssessDearer(s: Stake, t: Stake, raw: real, less: real, cap: real, relaxed: real, minEdge: real,
                     liquidity: Option<real>, up: bool)
    requires less <= raw && 0.0 <= s.minStake <= t.minStake && (t.fStar > 0.0 ==> s.fStar > 0.0)
    requires s.edge >= minEdge || t.edge <= s.edge
    requires s.usdc == t.usdc == 0.0 && s.rejected.None? && t.rejected.None?
    ensures var m, n := Assess(s, raw, cap, relaxed, minEdge, liquidity, up), Assess(t, less, cap, relaxed, minEdge, liquidity, up);
      n.usdc > m.usdc <==> n.rejected.None? && t.minStake > m.usdc
  {}

  lemma QuoteIsAssessed(q: Sizing)
    requires EarlyReject(q).None?
    ensures 0.0 < q.price < 1.0 && q.bankroll > 0.0 && 0.0 <= q.fair <= 1.0
    ensures KellyStake(q) == Assess(Opening(q), Raw(q, Opening(q).fStar), EffectiveCap(q.bankroll, q.maxFraction, 1.0),
                                    RelaxedCap(q), q.minEdge, q.liquidity, q.allowRoundUp)
  {
    InRangeIsInterior(q);
    hide Opening, Raw, EffectiveCap, RelaxedCap, Assess;
  }

  lemma RawFalls(q: Sizing, r: Sizing, f: real, g: real)
    requires q.bankroll == r.bankroll > 0.0 && Kappa(q) == Kappa(r) >= 0.0 && g <= f
    ensures Raw(r, g) <= Raw(q, f)
  {
    hide Kappa;
    MulNonNegative(q.bankroll, Kappa(q));
    MulLe(g, f, q.bankroll * Kappa(q));
  }

  /** The stake need not fall with the price, and this is exactly when: a dearer quote stakes more if and only if it is
      accepted and its own minimum - which grows with the price - exceeds the cheaper quote's stake, so it was rounded
      up. (With a fee rate above the whole of price * (1 - price) the cheaper quote must have had edge enough.) */
  lemma StakeRisesWithPriceExactly(q: Sizing, price: real)
    requires q.price <= price && EarlyReject(q).None? && EarlyReject(q.(price := price)).None?
    requires q.kellyFraction >= 0.0 && q.minStake >= 0.0
    requires Rate(q.feeRate, q.feesEnabled) <= 1.0 || (q.price < 1.0 && Opening(q).edge >= q.minEdge)
    ensures var s, t := KellyStake(q), KellyStake(q.(price := price));
      t.usdc > s.usdc <==> t.rejected.None? && EffectiveMinStake(q.minStake, q.marketMin, price) > s.usdc
  {
    var r := q.(price := price);
    assert Kappa(q) == Kappa(r) && RelaxedCap(q) == RelaxedCap(r);
    KappaNonNegative(q);
    hide KellyStake, Raw, RelaxedCap, EffectiveCap, Kappa, Assess, FStar, FeePerShare, EffectiveMinStake, Rate;
    QuoteIsAssessed(q);
    QuoteIsAssessed(r);
    DearerOpening(q, r);
    assert Opening(r).minStake == EffectiveMinStake(q.minStake, q.marketMin, price);
    hide Opening;
    RawFalls(q, r, Opening(q).fStar, Opening(r).fStar);
    AssessDearer(Opening(q), Opening(r), Raw(q, Opening(q).fStar), Raw(r, Opening(r).fStar),
                 EffectiveCap(q.bankroll, q.maxFraction, 1.0), RelaxedCap(q), q.minEdge, q.liquidity, q.allowRoundUp);
  }

  /** As where the stake is rounded up to the market's minimum at both prices. */
  lemma StakeMayRiseWithPrice()
    ensures var q := Sizing(100.0, 0.5, 0.9, 0.05, 1.0, 0.2, 0.0, 1.0, Some(10.0), 0, true, None, true, 1.0, None);
      KellyStake(q).usdc == 5.0 && KellyStake(q.(price := 0.6)).usdc == 6.0
  {}

  // ---- the stake in the quote's own fields ----

  /** Kelly's formula for a quote in the quote's own fields: the bankroll, scaled by fraction and confidence, times the
      growth-optimal fraction with the fee taken off. */
  function KellyFormula(q: Sizing): real
    requires q.price != 1.0
  {
    var r := if q.feesEnabled && q.feeRate > 0 then q.feeRate as real / 1000.0 else 0.0;
    q.bankroll * q.kellyFraction * q.confidence * ((q.fair - q.price) / (1.0 - q.price) - r * q.price)
  }

  lemma RecommendationInFields(q: Sizing)
    requires EarlyReject(q).None?
    ensures q.price < 1.0 && Raw(q, Opening(q).fStar) == KellyFormula(q)
  {
    InRangeIsInterior(q);
    FStarForm(q.price, q.fair, q.feeRate, q.feesEnabled);
    hide FStar, FeePerShare, EffectiveMinStake;
    var f := FStar(q.price, q.fair, q.feeRate, q.feesEnabled);
    assert q.bankroll * (q.kellyFraction * q.confidence) * f == q.bankroll * q.kellyFraction * q.confidence * f;
  }

  /** What every quote reports, staked or not: the scaled fraction and the minimum; and past the early checks the edge
      before the fee, the fee and the edge after it, in the quote's own fields. */
  lemma ReportInFields(q: Sizing)
    ensures var s := KellyStake(q);
      && s.kappa == q.kellyFraction * q.confidence && s.minStake >= q.minStake
      && (EarlyReject(q).Some? ==> s.usdc == s.fStar == s.edge == s.edgeGross == s.feePerShare == 0.0 && s.rejected == EarlyReject(q))
      && (EarlyReject(q).None? ==>
            var r := if q.feesEnabled && q.feeRate > 0 then q.feeRate as real / 1000.0 else 0.0;
            && s.edgeGross == q.fair - q.price && s.feePerShare == r * q.price * (1.0 - q.price)
            && s.edge == s.edgeGross - s.feePerShare)
  {
    if EarlyReject(q).None? {
      InRangeIsInterior(q);
      FeeRange(q.price, q.feeRate, q.feesEnabled);
      AssessReports(Opening(q), Raw(q, Opening(q).fStar), EffectiveCap(q.bankroll, q.maxFraction, 1.0), RelaxedCap(q),
                    q.minEdge, q.liquidity, q.allowRoundUp);
    }
    hide FStar, FeePerShare, Raw, EffectiveCap, RelaxedCap, Assess;
  }

  lemma AssessReports(s: Stake, raw: real, cap: real, relaxed: real, minEdge: real, liquidity: Option<real>, up: bool)
    ensures var n := Assess(s, raw, cap, relaxed, minEdge, liquidity, up);
      n.kappa == s.kappa && n.minStake == s.minStake && n.edge == s.edge && n.edgeGross == s.edgeGross
      && n.feePerShare == s.feePerShare && n.fStar == s.fStar
  {}

  lemma AssessCaps(s: Stake, raw: real, cap: real, relaxed: real, minEdge: real, liquidity: Option<real>, up: bool)
    requires s.cappedBy.None? && s.rejected.None?
    ensures var n := Assess(s, raw, cap, relaxed, minEdge, liquidity, up);
      n.rejected.None? ==>
        match n.cappedBy
        case None => n.usdc == raw
        case Some(what) =>
          if what == "max_position_fraction" then n.usdc == cap < raw
          else if what == "liquidity" then liquidity == Some(n.usdc) && n.usdc < raw
          else what == "rounded_up_to_market_min" && n.usdc == s.minStake && up
               && n.usdc <= relaxed && (Liquid(liquidity) ==> n.usdc <= liquidity.value)
  {}

  lemma StakeByCap(q: Sizing)
    requires KellyStake(q).rejected.None?
    ensures EarlyReject(q).None? && q.price != 1.0
    ensures var s := KellyStake(q);
      var relaxed, low := RelaxedCap(q), EffectiveMinStake(q.minStake, q.marketMin, q.price);
      match s.cappedBy
      case None => s.usdc == KellyFormula(q)
      case Some(what) =>
        if what == "max_position_fraction" then s.usdc == EffectiveCap(q.bankroll, q.maxFraction, 1.0) < KellyFormula(q)
        else if what == "liquidity" then q.liquidity == Some(s.usdc) && s.usdc < KellyFormula(q)
        else what == "rounded_up_to_market_min" && q.allowRoundUp && s.usdc == low <= relaxed
  {
    hide KellyStake, EarlyReject, FStar, FeePerShare, EffectiveMinStake, EffectiveCap, RelaxedCap, Raw, Assess, Kappa, KellyFormula;
    Accepted(q);
    RecommendationInFields(q);
    QuoteIsAssessed(q);
    AssessCaps(Opening(q), Raw(q, Opening(q).fStar), EffectiveCap(q.bankroll, q.maxFraction, 1.0), RelaxedCap(q),
               q.minEdge, q.liquidity, q.allowRoundUp);
  }

  lemma CapsInFields(q: Sizing)
    ensures EffectiveCap(q.bankroll, q.maxFraction, 1.0) == q.bankroll * q.maxFraction
    ensures RelaxedCap(q) == q.bankroll * q.maxFraction * q.overbetRatio
    ensures var low := EffectiveMinStake(q.minStake, q.marketMin, q.price);
      low == q.minStake || (q.marketMin.Some? && low == q.marketMin.value * q.price > q.minStake)
  {}

  /** Every accepted stake in the quote's own fields, by what capped it: nothing, the share of the bankroll, the
      liquidity, or the lift to the minimum, which only the tolerated overbet bounds. */
  lemma StakeInFields(q: Sizing)
    requires KellyStake(q).rejected.None?
    ensures q.price != 1.0
    ensures var s := KellyStake(q);
      match s.cappedBy
      case None => s.usdc == KellyFormula(q)
      case Some(what) =>
        if what == "max_position_fraction" then s.usdc == q.bankroll * q.maxFraction < KellyFormula(q)
        else if what == "liquidity" then q.liquidity == Some(s.usdc) && s.usdc < KellyFormula(q)
        else what == "rounded_up_to_market_min" && q.allowRoundUp && s.usdc <= q.bankroll * q.maxFraction * q.overbetRatio
             && (s.usdc == q.minStake || (q.marketMin.Some? && s.usdc == q.marketMin.value * q.price > q.minStake))
  {
    hide KellyStake, EarlyReject, EffectiveMinStake, EffectiveCap, RelaxedCap, KellyFormula;
    StakeByCap(q);
    CapsInFields(q);
  }

  lemma RawWithConfidence(q: Sizing, confidence: real, f: real)
    requires q.bankroll > 0.0 && q.kellyFraction >= 0.0 && q.confidence <= confidence && f > 0.0
    ensures Raw(q, f) <= Raw(q.(confidence := confidence), f)
  {
    MulLe(q.confidence, confidence, q.kellyFraction);
    MulLe(q.kellyFraction * q.confidence, q.kellyFraction * confidence, q.bankroll);
    MulLe(q.bankroll * (q.kellyFraction * q.confidence), q.bankroll * (q.kellyFraction * confidence), f);
  }

  lemma SurerOpening(q: Sizing, r: Sizing)
    requires r == q.(confidence := r.confidence) && 0.0 < q.price < 1.0 && q.minStake >= 0.0
    ensures Opening(q).usdc == Opening(r).usdc == 0.0 && Opening(q).rejected.None? && Opening(r).rejected.None?
    ensures Opening(q).minStake == Opening(r).minStake >= 0.0
    ensures Opening(q).edge == Opening(r).edge && Opening(q).fStar == Opening(r).fStar
    ensures RelaxedCap(q) == RelaxedCap(r)
  {
    assert EffectiveMinStake(q.minStake, q.marketMin, q.price) >= q.minStake;
    hide FStar, FeePerShare, EffectiveMinStake, Kappa;
  }

  lemma SurerPassesToo(q: Sizing, confidence: real)
    requires EarlyReject(q).None? && q.confidence <= confidence <= 1.0
    ensures EarlyReject(q.(confidence := confidence)).None?
  {}

  /** A surer estimate never lowers the stake, across the rejections, the caps and the rounding up. */
  lemma StakeRisesWithConfidence(q: Sizing, confidence: real)
    requires q.confidence <= confidence <= 1.0 && q.kellyFraction >= 0.0 && q.minStake >= 0.0
    ensures KellyStake(q).usdc <= KellyStake(q.(confidence := confidence)).usdc
  {
    hide FStar, FeePerShare, EffectiveMinStake, Raw, EffectiveCap, RelaxedCap, Kappa, Assess, EarlyReject, Opening;
    var r := q.(confidence := confidence);
    StakeNonNegative(r);
    if KellyStake(q).usdc != 0.0 {
      AcceptedFrom(q);
      SurerPassesToo(q, confidence);
      hide KellyStake;
      QuoteIsAssessed(q);
      QuoteIsAssessed(r);
      SurerOpening(q, r);
      RawWithConfidence(q, confidence, Opening(q).fStar);
      AssessMonotone(Opening(q), Opening(r), Raw(q, Opening(q).fStar), Raw(r, Opening(r).fStar),
        EffectiveCap(q.bankroll, q.maxFraction, 1.0), EffectiveCap(r.bankroll, r.maxFraction, 1.0),
        RelaxedCap(q), RelaxedCap(r), q.minEdge, q.liquidity, q.allowRoundUp);
    }
  }

  lemma FormulaIsProportional(q: Sizing, confidence: real)
    requires q.price != 1.0
    ensures KellyFormula(q) * confidence == KellyFormula(q.(confidence := confidence)) * q.confidence
  {
    var r := if q.feesEnabled && q.feeRate > 0 then q.feeRate as real / 1000.0 else 0.0;
    var whole, f := q.bankroll * q.kellyFraction, (q.fair - q.price) / (1.0 - q.price) - r * q.price;
    Commute(whole, q.confidence, f, confidence);
  }

  lemma Commute(a: real, b: real, f: real, d: real)
    ensures a * b * f * d == a * d * f * b
  {}

  /** Stakes that nothing caps or lifts are to each other as the confidences behind them. */
  lemma UncappedStakeIsProportional(q: Sizing, confidence: real)
    requires KellyStake(q).rejected.None? && KellyStake(q).cappedBy.None?
    requires var s := KellyStake(q.(confidence := confidence)); s.rejected.None? && s.cappedBy.None?
    ensures KellyStake(q).usdc * confidence == KellyStake(q.(confidence := confidence)).usdc * q.confidence
  {
    hide KellyStake, KellyFormula;
    StakeInFields(q);
    StakeInFields(q.(confidence := confidence));
    FormulaIsProportional(q, confidence);
  }

  /** Without any confidence nothing is staked but a lift to the minimum. */
  lemma NoConfidenceNoStake(q: Sizing)
    requires q.confidence == 0.0 && KellyStake(q).usdc > 0.0
    ensures KellyStake(q).cappedBy == Some("rounded_up_to_market_min")
  {
    AcceptedFrom(q);
    if KellyStake(q).rejected.None? {
      Accepted(q);
      StakeInFields(q);
      hide KellyStake;
    }
  }

  /** The prices a quote may have: a tick off either end - and never below a ten thousandth - or a cent without one. */
  lemma PriceRangeExactly(q: Sizing)
    requires q.bankroll > 0.0
    ensures EarlyReject(q) == Some("price_out_of_range") <==>
      match q.tick
      case Some(t) =>
        if t > 0.0 then q.price < t || q.price < 0.0001 || q.price > 1.0 - t else q.price < 0.01 || q.price > 0.99
      case None => q.price < 0.01 || q.price > 0.99
  {}
}

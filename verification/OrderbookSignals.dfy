/** Which way the signals point: what moves score, momentum, flow, label and confidence, and by how much. */
module OrderbookSignals {
  import opened Prelude
  import opened RealFacts
  import opened Orderbook
  import opened OrderbookDelta

  // ---- rounding ----

  /** To the nearest, a tie to the even neighbour. */
  lemma HalfEvenNearest(x: real)
    ensures -0.5 <= HalfEven(x) as real - x <= 0.5
    ensures AbsReal(HalfEven(x) as real - x) == 0.5 ==> HalfEven(x) % 2 == 0
  {}

  lemma HalfEvenRises(x: real, y: real)
    requires x <= y
    ensures HalfEven(x) <= HalfEven(y)
  {
    if x.Floor < y.Floor {
      HalfEvenNearest(x);
    } else {
      assert x.Floor == y.Floor;
    }
  }

  lemma QuantizeRises(x: real, y: real, scale: real)
    requires x <= y && scale > 0.0
    ensures Quantize(x, scale) <= Quantize(y, scale)
  {
    MulLe(x, y, scale);
    HalfEvenRises(x * scale, y * scale);
    DivLe(HalfEven(x * scale) as real, HalfEven(y * scale) as real, scale);
  }

  lemma QuantizeNear(x: real, scale: real)
    requires scale > 0.0
    ensures AbsReal(Quantize(x, scale) - x) * scale <= 0.5
  {
    HalfEvenNearest(x * scale);
    var n := HalfEven(x * scale) as real;
    hide HalfEven;
    DivMul(n, scale);
    assert (n / scale - x) * scale == n - x * scale;
    assert (x - n / scale) * scale == x * scale - n;
  }

  /** Rounding to ten thousandths. */
  lemma QuantizeFine(x: real)
    ensures AbsReal(Quantize(x, 10000.0) - x) <= 0.00005
    ensures Quantize(1.0, 10000.0) == 1.0 && Quantize(-1.0, 10000.0) == -1.0 && Quantize(0.0, 10000.0) == 0.0
  {
    QuantizeNear(x, 10000.0);
    assert HalfEven(10000.0) == 10000 && HalfEven(-10000.0) == -10000 && HalfEven(0.0) == 0;
  }

  // ---- score and momentum ----

  lemma ClampRises(x: real, y: real)
    requires x <= y
    ensures Clamp(x) <= Clamp(y)
  {}

  function Saturated(d: real, unit: real): real
    requires unit > 0.0
  {
    Quantize(Clamp(d / unit) / 5.0, 10000.0)
  }

  lemma SaturatedFacts(d: real, unit: real)
    requires unit > 0.0
    ensures d >= 5.0 * unit ==> Saturated(d, unit) == 1.0
    ensures d == 0.0 ==> Saturated(d, unit) == 0.0
    ensures AbsReal(d) <= 5.0 * unit ==> AbsReal(Saturated(d, unit) - d / (5.0 * unit)) <= 0.00005
  {
    hide Quantize;
    var u := d / unit;
    DivMul(d, unit);
    DivMul(5.0, unit);
    if d >= 5.0 * unit {
      DivLe(5.0 * unit, d, unit);
      assert Clamp(u) / 5.0 == 1.0;
    }
    QuantizeFine(Clamp(u) / 5.0);
    if AbsReal(d) <= 5.0 * unit {
      DivLe(d, 5.0 * unit, unit);
      DivLe(-(5.0 * unit), d, unit);
      DivMul(-5.0, unit);
      assert -5.0 * unit == -(5.0 * unit);
      assert Clamp(u) == u;
      FifthOf(d, unit);
    }
  }

  lemma FifthOf(d: real, unit: real)
    requires unit > 0.0
    ensures d / unit / 5.0 == d / (5.0 * unit)
  {
    DivMul(d, unit);
    DivMul(d, 5.0 * unit);
    var x := d / unit / 5.0;
    assert x * (5.0 * unit) == d;
    DivMul(x, 5.0 * unit);
  }

  lemma SaturatedRises(d: real, e: real, unit: real)
    requires d <= e && unit > 0.0
    ensures Saturated(d, unit) <= Saturated(e, unit)
  {
    hide Quantize;
    DivLe(d, e, unit);
    ClampRises(d / unit, e / unit);
    QuantizeRises(Clamp(d / unit) / 5.0, Clamp(e / unit) / 5.0, 10000.0);
  }

  lemma SaturatedNought(unit: real)
    requires unit > 0.0
    ensures Saturated(0.0, unit) == 0.0
  {
    SaturatedFacts(0.0, unit);
    hide Saturated;
  }

  lemma ScoreIsSaturated(d: real)
    ensures DirectionScore(Some(d)) == Saturated(d, 0.005) && DirectionScore(None) == 0.0
  {
    hide Quantize, Clamp;
    if d == 0.0 {
      SaturatedNought(0.005);
    }
  }

  lemma MomentumIsSaturated(v: real)
    ensures PriceMomentum(Some(v)) == Saturated(v, 0.001) && PriceMomentum(None) == 0.0
  {
    hide Quantize, Clamp;
    if v == 0.0 {
      SaturatedNought(0.001);
    }
  }

  /** The score is the fair-value shift over two and a half cents up to rounding, never falls as the shift grows, has
      its sign and is full from two and a half cents on; a shift that is not known scores nothing. */
  lemma ScoreInFields(d: real, e: real)
    ensures AbsReal(d) <= 0.025 ==> AbsReal(DirectionScore(Some(d)) - d / 0.025) <= 0.00005
    ensures d >= 0.025 ==> DirectionScore(Some(d)) == 1.0
    ensures d <= e ==> DirectionScore(Some(d)) <= DirectionScore(Some(e))
    ensures d >= 0.0 ==> DirectionScore(Some(d)) >= 0.0
    ensures DirectionScore(None) == 0.0
  {
    hide Quantize, DirectionScore, Saturated;
    ScoreIsSaturated(d);
    ScoreIsSaturated(e);
    SaturatedFacts(d, 0.005);
    SaturatedFacts(0.0, 0.005);
    if d <= e {
      SaturatedRises(d, e, 0.005);
    }
    if 0.0 <= d {
      SaturatedRises(0.0, d, 0.005);
    }
  }

  /** The same for the speed, a fifth of whose scale is a tenth of a cent a second. */
  lemma MomentumInFields(v: real, u: real)
    ensures AbsReal(v) <= 0.005 ==> AbsReal(PriceMomentum(Some(v)) - v / 0.005) <= 0.00005
    ensures v >= 0.005 ==> PriceMomentum(Some(v)) == 1.0
    ensures v <= u ==> PriceMomentum(Some(v)) <= PriceMomentum(Some(u))
    ensures v >= 0.0 ==> PriceMomentum(Some(v)) >= 0.0
    ensures PriceMomentum(None) == 0.0
  {
    hide Quantize, PriceMomentum, Saturated;
    MomentumIsSaturated(v);
    MomentumIsSaturated(u);
    SaturatedFacts(v, 0.001);
    SaturatedFacts(0.0, 0.001);
    if v <= u {
      SaturatedRises(v, u, 0.001);
    }
    if 0.0 <= v {
      SaturatedRises(0.0, v, 0.001);
    }
  }

  /** The speed is the shift over the seconds between first and last sample, to the millionth; samples at one moment
      count as a second apart. */
  lemma VelocityInFields(first: Sample, last: Sample, d: real)
    ensures var t := if last.receivedAt > first.receivedAt then last.receivedAt - first.receivedAt else 1.0;
      Elapsed(first, last) == t
      && Velocity(Some(d), t).Some? && AbsReal(Velocity(Some(d), t).value - d / t) <= 0.0000005
      && (d >= 0.0 ==> Velocity(Some(d), t).value >= 0.0)
  {
    var t := Elapsed(first, last);
    QuantizeNear(d / t, 1000000.0);
    if d >= 0.0 {
      DivLe(0.0, d, t);
      DivMul(0.0, t);
      QuantizeRises(0.0, d / t, 1000000.0);
      assert HalfEven(0.0) == 0;
    }
    hide Quantize;
  }

  /** The fair value's shift is what is measured where it is known at both ends; otherwise the shift all known best
      prices share; and nothing where neither price is known at both ends. */
  lemma ShiftInFields(first: Sample, last: Sample, x: real)
    ensures first.microprice.Some? && last.microprice.Some? ==>
              MidDelta(first, last) == Some(last.microprice.value - first.microprice.value)
    ensures var bid, ask := first.bestBid.Some? && last.bestBid.Some?, first.bestAsk.Some? && last.bestAsk.Some?;
      (first.microprice.None? || last.microprice.None?) ==>
        && (MidDelta(first, last).None? <==> !bid && !ask)
        && (var together := (bid ==> last.bestBid.value == first.bestBid.value + x)
                            && (ask ==> last.bestAsk.value == first.bestAsk.value + x);
            (bid || ask) && together ==> MidDelta(first, last) == Some(x))
        && (bid && ask ==>
              2.0 * MidDelta(first, last).value ==
                (last.bestBid.value + last.bestAsk.value) - (first.bestBid.value + first.bestAsk.value))
  {}

  // ---- the flow ----

  function Ratio(bid: real, ask: real): real {
    if AbsReal(bid) + AbsReal(ask) == 0.0 then 0.0 else (bid - ask) / (AbsReal(bid) + AbsReal(ask))
  }

  lemma FlowIsRatio(bid: real, ask: real)
    ensures FlowImbalance(Some(bid), Some(ask)) == Quantize(Ratio(bid, ask), 10000.0)
    ensures FlowImbalance(None, Some(ask)) == Quantize(Ratio(0.0, ask), 10000.0)
    ensures FlowImbalance(Some(bid), None) == Quantize(Ratio(bid, 0.0), 10000.0)
    ensures FlowImbalance(None, None) == 0.0
  {
    assert -ask - -bid == bid - ask && 0.0 - -bid == bid - 0.0 && -ask - 0.0 == 0.0 - ask;
    assert AbsReal(-bid) == AbsReal(bid) && AbsReal(-ask) == AbsReal(ask) && AbsReal(-0.0) == 0.0;
    QuantizeFine(0.0);
    hide Quantize;
  }

  lemma RatioFacts(bid: real, ask: real)
    ensures bid > ask && bid >= 0.0 && ask <= 0.0 ==> Ratio(bid, ask) == 1.0
    ensures bid < ask && bid <= 0.0 && ask >= 0.0 ==> Ratio(bid, ask) == -1.0
    ensures (Ratio(bid, ask) > 0.0 <==> bid > ask) && (Ratio(bid, ask) < 0.0 <==> bid < ask)
  {
    var total := AbsReal(bid) + AbsReal(ask);
    if total != 0.0 {
      DivMul(bid - ask, total);
      DivMul(1.0, total);
      DivMul(-1.0, total);
      assert -1.0 * total == -total;
      SignOfRatio(bid - ask, total);
    }
  }

  lemma SignOfRatio(a: real, d: real)
    requires d > 0.0
    ensures (a / d > 0.0 <==> a > 0.0) && (a / d < 0.0 <==> a < 0.0)
  {}

  /** Asks consumed and bids not: the flow is full up. It never points against the side that was consumed more, and with
      nothing moved it is nothing; a side whose depth is not known counts as unmoved. */
  lemma FlowInFields(bid: real, ask: real)
    ensures bid >= 0.0 > ask || bid > 0.0 >= ask ==> FlowImbalance(Some(bid), Some(ask)) == 1.0
    ensures ask < 0.0 ==> FlowImbalance(None, Some(ask)) == 1.0
    ensures bid > 0.0 ==> FlowImbalance(Some(bid), None) == 1.0
    ensures bid >= ask ==> FlowImbalance(Some(bid), Some(ask)) >= 0.0
    ensures bid > ask && bid - ask >= 0.0001 * (AbsReal(bid) + AbsReal(ask)) ==> FlowImbalance(Some(bid), Some(ask)) > 0.0
    ensures FlowImbalance(Some(bid), Some(bid)) == 0.0 && FlowImbalance(None, None) == 0.0
  {
    hide FlowImbalance, Quantize, AbsReal, Ratio;
    FlowIsRatio(bid, ask);
    FlowIsRatio(bid, bid);
    RatioFacts(bid, ask);
    RatioFacts(0.0, ask);
    RatioFacts(bid, 0.0);
    RatioFacts(bid, bid);
    QuantizeFine(0.0);
    if bid >= ask {
      QuantizeRises(0.0, Ratio(bid, ask), 10000.0);
    }
    if bid > ask && bid - ask >= 0.0001 * (AbsReal(bid) + AbsReal(ask)) {
      RatioAtLeast(bid, ask);
      QuantizeFine(Ratio(bid, ask));
      CloseToPositive(Quantize(Ratio(bid, ask), 10000.0), Ratio(bid, ask));
    }
  }

  lemma CloseToPositive(q: real, x: real)
    requires AbsReal(q - x) <= 0.00005 && x >= 0.0001
    ensures q > 0.0
  {}

  lemma RatioAtLeast(bid: real, ask: real)
    requires bid > ask && bid - ask >= 0.0001 * (AbsReal(bid) + AbsReal(ask))
    ensures Ratio(bid, ask) >= 0.0001
  {
    var total := AbsReal(bid) + AbsReal(ask);
    DivLe(0.0001 * total, bid - ask, total);
    DivMul(0.0001, total);
  }

  lemma RatioRises(bid: real, more: real, ask: real)
    requires bid <= more
    ensures Ratio(bid, ask) <= Ratio(more, ask)
  {
    RatioFacts(bid, ask);
    RatioFacts(more, ask);
    RatioWithin(bid, ask);
    RatioWithin(more, ask);
    if bid > 0.0 && ask > 0.0 {
      RatioOfGains(bid, ask);
      RatioOfGains(more, ask);
      DivByLarger(2.0 * ask, more + ask, bid + ask);
    } else if more < 0.0 && ask < 0.0 {
      RatioOfLosses(bid, ask);
      RatioOfLosses(more, ask);
      DivByLarger(-2.0 * ask, -bid - ask, -more - ask);
    }
    hide Ratio;
  }

  lemma RatioWithin(bid: real, ask: real)
    ensures -1.0 <= Ratio(bid, ask) <= 1.0
  {
    if AbsReal(bid) + AbsReal(ask) != 0.0 {
      FlowRatio(-bid, -ask);
      assert AbsReal(-bid) == AbsReal(bid) && AbsReal(-ask) == AbsReal(ask) && -ask - -bid == bid - ask;
    }
  }

  lemma RatioOfGains(bid: real, ask: real)
    requires bid > 0.0 && ask > 0.0
    ensures Ratio(bid, ask) == 1.0 - 2.0 * ask / (bid + ask)
  {
    DivSum(bid + ask, 2.0 * ask, bid + ask);
    DivMul(1.0, bid + ask);
    assert (bid + ask) - 2.0 * ask == bid - ask;
  }

  lemma RatioOfLosses(bid: real, ask: real)
    requires bid < 0.0 && ask < 0.0
    ensures Ratio(bid, ask) == -2.0 * ask / (-bid - ask) - 1.0
  {
    DivSum(-2.0 * ask, -bid - ask, -bid - ask);
    DivMul(1.0, -bid - ask);
    assert -2.0 * ask - (-bid - ask) == bid - ask;
  }

  /** The more the bids gained - or the less they were consumed - the higher the flow. */
  lemma FlowRises(bid: real, more: real, ask: real)
    requires bid <= more
    ensures FlowImbalance(Some(bid), Some(ask)) <= FlowImbalance(Some(more), Some(ask))
    ensures FlowImbalance(Some(ask), Some(more)) <= FlowImbalance(Some(ask), Some(bid))
  {
    hide FlowImbalance, Quantize, Ratio;
    FlowIsRatio(bid, ask);
    FlowIsRatio(more, ask);
    RatioRises(bid, more, ask);
    QuantizeRises(Ratio(bid, ask), Ratio(more, ask), 10000.0);
    FlowOdd(Some(bid), Some(ask));
    FlowOdd(Some(more), Some(ask));
  }

  // ---- the label ----

  function Rank(l: Label): int {
    match l
    case No => -1
    case Neutral => 0
    case Yes => 1
  }

  /** The label never falls when any of the three signals rises. */
  lemma LabelRises(score: real, momentum: real, flow: real, s: real, m: real, f: real)
    requires score <= s && momentum <= m && flow <= f
    ensures Rank(CompositeLabel(score, momentum, flow)) <= Rank(CompositeLabel(s, m, f))
  {}

  /** Yes is said exactly when two signals are up by a fifth, or the score alone is and neither other is down by one; No
      in the mirrored case; so without a signal that high or that low nothing is said. */
  lemma LabelExactly(score: real, momentum: real, flow: real)
    ensures CompositeLabel(score, momentum, flow) == Yes <==>
      (score >= 0.2 && momentum >= 0.2) || (score >= 0.2 && flow >= 0.2) || (momentum >= 0.2 && flow >= 0.2)
      || (score >= 0.2 && momentum > -0.2 && flow > -0.2)
    ensures CompositeLabel(score, momentum, flow) == No <==>
      (score <= -0.2 && momentum <= -0.2) || (score <= -0.2 && flow <= -0.2) || (momentum <= -0.2 && flow <= -0.2)
      || (score <= -0.2 && momentum < 0.2 && flow < 0.2)
  {}

  /** A fair value that rose by at least half a cent says Yes unless the flow is down by a fifth while the speed is not
      up by one. */
  lemma RisenFairValueExactly(samples: seq<Sample>)
    requires |samples| > 0
    requires var first, last := samples[0], samples[|samples| - 1];
      first.microprice.Some? && last.microprice.Some? && last.microprice.value >= first.microprice.value + 0.005
    ensures var s := ComputeSignal(samples);
      s.score >= 0.2 && s.momentum >= 0.0
      && (s.direction == Yes <==> s.flow > -0.2 || s.momentum >= 0.2) && s.direction != No
  {
    hide Quantize, DirectionScore, PriceMomentum, FlowImbalance, CompositeLabel, Confidence, Velocity, Elapsed, MidDelta, Delta;
    var first, last := samples[0], samples[|samples| - 1];
    var d := last.microprice.value - first.microprice.value;
    ShiftInFields(first, last, 0.0);
    ScoreInFields(0.005, d);
    HalfCentScore();
    VelocityInFields(first, last, d);
    var v := Velocity(Some(d), Elapsed(first, last)).value;
    MomentumInFields(v, v);
    var s := ComputeSignal(samples);
    LabelExactly(s.score, s.momentum, s.flow);
  }

  lemma HalfCentScore()
    ensures DirectionScore(Some(0.005)) == 0.2
  {
    assert Clamp(0.005 / 0.005) / 5.0 == 0.2;
    assert HalfEven(2000.0) == 2000;
  }

  /** Over a window in which asks alone lost depth the flow is full up, in which bids alone did full down; a window in
      which both moved alike says nothing. */
  lemma ConsumedDepthShows(samples: seq<Sample>)
    requires |samples| > 0
    requires var first, last := samples[0], samples[|samples| - 1];
      first.bidDepth.Some? && last.bidDepth.Some? && first.askDepth.Some? && last.askDepth.Some?
    ensures var first, last, flow := samples[0], samples[|samples| - 1], ComputeSignal(samples).flow;
      && (last.askDepth.value < first.askDepth.value && last.bidDepth.value >= first.bidDepth.value ==> flow == 1.0)
      && (last.bidDepth.value < first.bidDepth.value && last.askDepth.value >= first.askDepth.value ==> flow == -1.0)
      && (last.bidDepth.value - first.bidDepth.value == last.askDepth.value - first.askDepth.value ==> flow == 0.0)
  {
    hide Quantize, DirectionScore, PriceMomentum, FlowImbalance, CompositeLabel, Confidence, Velocity, Elapsed, MidDelta;
    var first, last := samples[0], samples[|samples| - 1];
    var bid, ask := last.bidDepth.value - first.bidDepth.value, last.askDepth.value - first.askDepth.value;
    FlowInFields(bid, ask);
    FlowInFields(ask, bid);
    FlowOdd(Some(ask), Some(bid));
  }

  /** The momentum of a window is the fair value's shift a second over half a cent, up to rounding. */
  lemma WindowMomentum(samples: seq<Sample>)
    requires |samples| > 0
    requires var first, last := samples[0], samples[|samples| - 1];
      first.microprice.Some? && last.microprice.Some? && last.receivedAt > first.receivedAt
      && AbsReal((last.microprice.value - first.microprice.value) / (last.receivedAt - first.receivedAt)) <= 0.0049
    ensures var first, last := samples[0], samples[|samples| - 1];
      var speed := (last.microprice.value - first.microprice.value) / (last.receivedAt - first.receivedAt);
      AbsReal(ComputeSignal(samples).momentum - speed / 0.005) <= 0.00015
  {
    hide Quantize, DirectionScore, PriceMomentum, FlowImbalance, CompositeLabel, Confidence, Velocity, Elapsed, MidDelta, Delta;
    var first, last := samples[0], samples[|samples| - 1];
    var d := last.microprice.value - first.microprice.value;
    ShiftInFields(first, last, 0.0);
    VelocityInFields(first, last, d);
    var v := Velocity(Some(d), Elapsed(first, last)).value;
    MomentumInFields(v, v);
    NearSpeed(v, d / (last.receivedAt - first.receivedAt), ComputeSignal(samples).momentum);
  }

  lemma NearSpeed(v: real, speed: real, momentum: real)
    requires AbsReal(v - speed) <= 0.0000005 && AbsReal(speed) <= 0.0049
    requires AbsReal(v) <= 0.005 ==> AbsReal(momentum - v / 0.005) <= 0.00005
    ensures AbsReal(momentum - speed / 0.005) <= 0.00015
  {
    assert v / 0.005 - speed / 0.005 == (v - speed) / 0.005;
  }

  // ---- the confidence ----

  /** A tenth a sample, ten at most, and half of that while one side's best price was never seen. */
  lemma ConfidenceExactly(samples: seq<Sample>)
    ensures var n := if |samples| < 10 then |samples| else 10;
      Confidence(samples) == if AnyBid(samples) && AnyAsk(samples) then n as real / 10.0 else n as real / 20.0
  {
    var n := if |samples| < 10 then |samples| else 10;
    hide AnyBid, AnyAsk;
    assert (n as real / 10.0) * 100.0 == (10 * n) as real && (n as real / 10.0 / 2.0) * 100.0 == (5 * n) as real;
    WholeStays(10 * n);
    WholeStays(5 * n);
    hide HalfEven;
  }

  lemma WholeStays(n: int)
    ensures HalfEven(n as real) == n
  {}

  lemma AnySideGrows(samples: seq<Sample>, s: Sample)
    ensures AnyBid(samples) ==> AnyBid(samples + [s])
    ensures AnyAsk(samples) ==> AnyAsk(samples + [s])
  {
    if i :| 0 <= i < |samples| && samples[i].bestBid.Some? {
      assert (samples + [s])[i].bestBid.Some?;
    }
    if i :| 0 <= i < |samples| && samples[i].bestAsk.Some? {
      assert (samples + [s])[i].bestAsk.Some?;
    }
  }

  /** One more sample never makes the signal less sure. */
  lemma ConfidenceRises(samples: seq<Sample>, s: Sample)
    ensures Confidence(samples) <= Confidence(samples + [s])
  {
    hide Quantize, AnyBid, AnyAsk, Confidence;
    ConfidenceExactly(samples);
    ConfidenceExactly(samples + [s]);
    AnySideGrows(samples, s);
  }
}

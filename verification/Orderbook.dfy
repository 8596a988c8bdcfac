/** A token's order book, its fair-value estimate, and what becomes of both when the book is seen from the
    other outcome of the market: prices p become 1 - p and the sides swap. */
module Orderbook {
  import opened Prelude
  import opened RealFacts
  import opened BookWalkModel

  const CEILING := 0.99
  const FLOOR := 0.01
  const DUST := 5.0

  datatype Snapshot = Snapshot(
    bids: seq<Level>,
    asks: seq<Level>,
    bestBid: Option<real>,
    bestAsk: Option<real>,
    bestBidSize: Option<real>,
    bestAskSize: Option<real>
  )

  datatype BidState = BidOk | NoBid | FloorBidOnly | DustBid
  datatype AskState = AskOk | NoAsk | CeilingAskOnly | DustAsk

  function BidLiquidity(b: Snapshot): BidState {
    if b.bids == [] || b.bestBid.None? then NoBid
    else if b.bestBid.value <= FLOOR then FloorBidOnly
    else if b.bestBidSize.Some? && Times(b.bestBid.value, b.bestBidSize.value) < DUST then DustBid
    else BidOk
  }

  function AskLiquidity(b: Snapshot): AskState {
    if b.asks == [] || b.bestAsk.None? then NoAsk
    else if b.bestAsk.value >= CEILING then CeilingAskOnly
    else if b.bestAskSize.Some? && Times(b.bestAsk.value, b.bestAskSize.value) < DUST then DustAsk
    else AskOk
  }

  predicate SellActionable(b: Snapshot) { BidLiquidity(b) == BidOk }

  predicate BuyActionable(b: Snapshot) { AskLiquidity(b) == AskOk }

  predicate BidReal(b: Snapshot) { BidLiquidity(b) !in {NoBid, FloorBidOnly} }

  predicate AskReal(b: Snapshot) { AskLiquidity(b) !in {NoAsk, CeilingAskOnly} }

  /** The size-weighted price of the next trade; where one side is not real, the other side's best. */
  function Microprice(b: Snapshot): Option<real> {
    if !BidReal(b) && !AskReal(b) then None
    else if !BidReal(b) then b.bestAsk
    else if !AskReal(b) then b.bestBid
    else if b.bestBidSize.None? || b.bestAskSize.None? then Some((b.bestBid.value + b.bestAsk.value) / 2.0)
    else
      var total := b.bestBidSize.value + b.bestAskSize.value;
      if total <= 0.0 then Some((b.bestBid.value + b.bestAsk.value) / 2.0)
      else
        Some((Times(b.bestAsk.value, b.bestBidSize.value) + Times(b.bestBid.value, b.bestAskSize.value)) / total)
  }

  // ---- the mirror ----

  function Flip(p: Option<real>): Option<real> {
    if p.None? then None else Some(1.0 - p.value)
  }

  function FlipLevels(levels: seq<Level>): (flipped: seq<Level>)
    ensures |flipped| == |levels|
  {
    if levels == [] then [] else [Level(1.0 - levels[0].price, levels[0].size)] + FlipLevels(levels[1..])
  }

  function Complement(b: Snapshot): Snapshot {
    Snapshot(FlipLevels(b.asks), FlipLevels(b.bids), Flip(b.bestAsk), Flip(b.bestBid), b.bestAskSize, b.bestBidSize)
  }

  lemma {:induction false} FlipTwice(levels: seq<Level>)
    ensures FlipLevels(FlipLevels(levels)) == levels
  {
    if levels != [] {
      assert FlipLevels(levels)[1..] == FlipLevels(levels[1..]);
      FlipTwice(levels[1..]);
    }
  }

  /** Looking back from the other outcome gives the book one started from. */
  lemma ComplementTwice(b: Snapshot)
    ensures Complement(Complement(b)) == b
  {
    FlipTwice(b.bids);
    FlipTwice(b.asks);
  }

  lemma RealSidesSwap(b: Snapshot)
    ensures BidReal(Complement(b)) == AskReal(b) && AskReal(Complement(b)) == BidReal(b)
  {
    hide Times;
  }

  lemma WeightedMirror(bid: real, ask: real, bidSize: real, askSize: real)
    requires bidSize + askSize > 0.0
    ensures (Times(1.0 - bid, askSize) + Times(1.0 - ask, bidSize)) / (askSize + bidSize) ==
            1.0 - (Times(ask, bidSize) + Times(bid, askSize)) / (bidSize + askSize)
  {
    var total, weighted := bidSize + askSize, Times(ask, bidSize) + Times(bid, askSize);
    TimesLaws(1.0, bid, askSize);
    TimesLaws(1.0, ask, bidSize);
    assert Times(1.0, askSize) == askSize && Times(1.0, bidSize) == bidSize;
    hide Times;
    DivSum(total, weighted, total);
    DivMul(1.0, total);
  }

  /** In every liquidity branch the mirrored book's fair value is one minus the book's. */
  lemma MicropriceMirrors(b: Snapshot)
    ensures Microprice(Complement(b)) == Flip(Microprice(b))
  {
    RealSidesSwap(b);
    hide Times;
    if BidReal(b) && AskReal(b) && b.bestBidSize.Some? && b.bestAskSize.Some?
       && b.bestBidSize.value + b.bestAskSize.value > 0.0
    {
      WeightedMirror(b.bestBid.value, b.bestAsk.value, b.bestBidSize.value, b.bestAskSize.value);
    }
  }

  lemma WeightedBetween(bid: real, ask: real, bidSize: real, askSize: real)
    requires bid <= ask && bidSize >= 0.0 && askSize >= 0.0 && bidSize + askSize > 0.0
    ensures bid <= (Times(ask, bidSize) + Times(bid, askSize)) / (bidSize + askSize) <= ask
  {
    var total, weighted := bidSize + askSize, Times(ask, bidSize) + Times(bid, askSize);
    MulLe(bid, ask, bidSize);
    MulLe(bid, ask, askSize);
    assert bid * total == bid * bidSize + bid * askSize;
    assert ask * total == ask * bidSize + ask * askSize;
    DivLe(bid * total, weighted, total);
    DivLe(weighted, ask * total, total);
    DivMul(bid, total);
    DivMul(ask, total);
  }

  /** With both sides real and not crossed, it lies between the best prices. */
  lemma MicropriceBetween(b: Snapshot)
    requires BidReal(b) && AskReal(b) && b.bestBid.value <= b.bestAsk.value
    requires (b.bestBidSize.Some? ==> b.bestBidSize.value >= 0.0) && (b.bestAskSize.Some? ==> b.bestAskSize.value >= 0.0)
    ensures Microprice(b).Some? && b.bestBid.value <= Microprice(b).value <= b.bestAsk.value
  {
    hide Times;
    if b.bestBidSize.Some? && b.bestAskSize.Some? && b.bestBidSize.value + b.bestAskSize.value > 0.0 {
      WeightedBetween(b.bestBid.value, b.bestAsk.value, b.bestBidSize.value, b.bestAskSize.value);
    }
  }

  // ---- what the fair value is ----

  /** A bid is real above a cent, an ask below ninety-nine, each with levels behind it. */
  lemma RealInFields(b: Snapshot)
    ensures BidReal(b) <==> b.bids != [] && b.bestBid.Some? && b.bestBid.value > 0.01
    ensures AskReal(b) <==> b.asks != [] && b.bestAsk.Some? && b.bestAsk.value < 0.99
  {
    hide Times;
  }

  /** A side can be traded on exactly when it is real and, where its size is known, worth at least five. */
  lemma ActionableInFields(b: Snapshot)
    ensures SellActionable(b) <==>
            BidReal(b) && (b.bestBidSize.Some? ==> b.bestBid.value * b.bestBidSize.value >= 5.0)
    ensures BuyActionable(b) <==>
            AskReal(b) && (b.bestAskSize.Some? ==> b.bestAsk.value * b.bestAskSize.value >= 5.0)
  {
    if BidReal(b) && b.bestBidSize.Some? {
      assert Times(b.bestBid.value, b.bestBidSize.value) == b.bestBid.value * b.bestBidSize.value;
    }
    if AskReal(b) && b.bestAskSize.Some? {
      assert Times(b.bestAsk.value, b.bestAskSize.value) == b.bestAsk.value * b.bestAskSize.value;
    }
    hide Times;
  }

  /** With one side real the fair value is that side's best, with none there is none, and without usable sizes it is the
      middle. */
  lemma MicropriceWithoutSizes(b: Snapshot)
    ensures Microprice(b).None? <==> !BidReal(b) && !AskReal(b)
    ensures BidReal(b) && !AskReal(b) ==> Microprice(b) == b.bestBid
    ensures AskReal(b) && !BidReal(b) ==> Microprice(b) == b.bestAsk
    ensures BidReal(b) && AskReal(b)
            && (b.bestBidSize.None? || b.bestAskSize.None? || b.bestBidSize.value + b.bestAskSize.value <= 0.0) ==>
              Microprice(b).value - b.bestBid.value == b.bestAsk.value - Microprice(b).value
  {
    hide Times;
  }

  lemma WeightedBalance(bid: real, ask: real, bidSize: real, askSize: real)
    requires bidSize + askSize > 0.0
    ensures var m := (Times(ask, bidSize) + Times(bid, askSize)) / (bidSize + askSize);
      (ask - m) * bidSize == (m - bid) * askSize
      && (m - (bid + ask) / 2.0) * (2.0 * (bidSize + askSize)) == (ask - bid) * (bidSize - askSize)
  {
    var total, weighted := bidSize + askSize, Times(ask, bidSize) + Times(bid, askSize);
    var m := weighted / total;
    DivMul(weighted, total);
    assert m * bidSize + m * askSize == ask * bidSize + bid * askSize;
    Expand(ask, m, bidSize);
    Expand(m, bid, askSize);
    Expand(m, (bid + ask) / 2.0, 2.0 * total);
    Expand(ask, bid, bidSize - askSize);
    assert m * (2.0 * total) == 2.0 * (ask * bidSize + bid * askSize);
    assert (bid + ask) / 2.0 * (2.0 * total) == (bid + ask) * total;
  }

  lemma Expand(a: real, b: real, k: real)
    ensures (a - b) * k == a * k - b * k
  {}

  lemma SignOfProduct(a: real, k: real)
    requires k > 0.0
    ensures (a * k > 0.0 <==> a > 0.0) && (a * k < 0.0 <==> a < 0.0)
  {}

  /** The fair value hangs between the best prices like a balance: its distance to the ask times the size bid is its
      distance to the bid times the size offered; so it lies above the middle exactly when the bid is the larger side. */
  lemma MicropriceLeansExactly(b: Snapshot)
    requires BidReal(b) && AskReal(b) && b.bestBidSize.Some? && b.bestAskSize.Some?
    requires b.bestBidSize.value + b.bestAskSize.value > 0.0
    ensures Microprice(b).Some?
    ensures var m, bid, ask := Microprice(b).value, b.bestBid.value, b.bestAsk.value;
      && (ask - m) * b.bestBidSize.value == (m - bid) * b.bestAskSize.value
      && (bid < ask ==> (m > (bid + ask) / 2.0 <==> b.bestBidSize.value > b.bestAskSize.value))
  {
    hide Times;
    var bid, ask, bs, as' := b.bestBid.value, b.bestAsk.value, b.bestBidSize.value, b.bestAskSize.value;
    WeightedBalance(bid, ask, bs, as');
    var m := Microprice(b).value;
    if bid < ask {
      SignOfProduct(m - (bid + ask) / 2.0, 2.0 * (bs + as'));
      SignOfProduct(bs - as', ask - bid);
    }
  }

  // ---- what is not mirrored ----

  /** Whether a sale is possible in the mirror is whether a purchase is possible here, exactly when the two
      dust tests - each on its own price - agree. */
  lemma ActionableMirrorsExactly(b: Snapshot)
    requires AskReal(b)
    ensures (SellActionable(Complement(b)) <==> BuyActionable(b)) <==>
            (b.bestAskSize.None? ||
             (Times(1.0 - b.bestAsk.value, b.bestAskSize.value) < DUST <==> Times(b.bestAsk.value, b.bestAskSize.value) < DUST))
  {
    hide Times;
  }

  /** They can disagree: ten shares offered at 0.9 can be bought, but not sold at 0.1 in the mirror. */
  lemma ActionableNotMirrored()
    ensures var b := Snapshot([], [Level(0.9, 10.0)], None, Some(0.9), None, Some(10.0));
      BuyActionable(b) && !SellActionable(Complement(b))
  {}

  const BAND := 0.05

  predicate InBand(p: real, m: real) { m - BAND <= p <= m + BAND }

  /** The money resting within the band around the fair value. */
  function BandDepth(levels: seq<Level>, m: real): real {
    if levels == [] then 0.0
    else (if InBand(levels[0].price, m) then LevelValue(levels[0]) else 0.0) + BandDepth(levels[1..], m)
  }

  function BandShares(levels: seq<Level>, m: real): real {
    if levels == [] then 0.0
    else (if InBand(levels[0].price, m) then levels[0].size else 0.0) + BandShares(levels[1..], m)
  }

  method RealPriceBandDepth(levels: seq<Level>, m: real) returns (depth: real)
    ensures depth == BandDepth(levels, m)
  {
    hide LevelValue;
    depth := 0.0;
    var i := 0;
    assert levels[0..] == levels;
    while i < |levels|
      invariant 0 <= i <= |levels| && depth + BandDepth(levels[i..], m) == BandDepth(levels, m)
    {
      assert levels[i..][1..] == levels[i + 1..];
      if levels[i].price >= m - BAND && levels[i].price <= m + BAND {
        depth := depth + LevelValue(levels[i]);
      }
      i := i + 1;
    }
  }

  lemma {:induction false} BandDepthAppends(levels: seq<Level>, l: Level, m: real)
    ensures BandDepth(levels + [l], m) == BandDepth(levels, m) + BandDepth([l], m)
  {
    hide LevelValue, InBand;
    if levels == [] {
      assert levels + [l] == [l];
    } else {
      assert (levels + [l])[1..] == levels[1..] + [l];
      BandDepthAppends(levels[1..], l, m);
    }
  }

  /** One more level adds its shares at its price if it lies within five cents of the fair value, and nothing if not;
      an empty side has no depth. */
  lemma BandDepthGrows(levels: seq<Level>, l: Level, m: real)
    ensures BandDepth([], m) == 0.0
    ensures BandDepth(levels + [l], m) == BandDepth(levels, m) + (if AbsReal(l.price - m) <= 0.05 then l.size * l.price else 0.0)
  {
    BandDepthAppends(levels, l, m);
    assert [l][1..] == [];
    assert BandDepth([l], m) == if InBand(l.price, m) then LevelValue(l) else 0.0;
  }

  /** A side's depth and its mirror's together are the shares in the band. */
  lemma {:induction false} BandDepthMirror(levels: seq<Level>, m: real)
    ensures BandDepth(levels, m) + BandDepth(FlipLevels(levels), 1.0 - m) == BandShares(levels, m)
  {
    if levels != [] {
      var l := levels[0];
      TimesLaws(l.size, l.price, 1.0 - l.price);
      assert Times(l.size, l.price + (1.0 - l.price)) == l.size;
      hide Times;
      assert FlipLevels(levels)[1..] == FlipLevels(levels[1..]);
      BandDepthMirror(levels[1..], m);
    }
  }

  /** So a side's depth survives the mirror exactly when it is worth half its shares in the band. */
  lemma DepthMirrorsExactly(levels: seq<Level>, m: real)
    ensures BandDepth(FlipLevels(levels), 1.0 - m) == BandDepth(levels, m) <==> 2.0 * BandDepth(levels, m) == BandShares(levels, m)
  {
    BandDepthMirror(levels, m);
    hide BandDepth, BandShares;
  }
}

/** The direction signal over a window of samples: price shift, its speed, the depth flow and their label. */
module OrderbookDelta {
  import opened Prelude
  import opened RealFacts
  import opened BookWalkModel
  import opened Orderbook

  datatype Sample = Sample(
    receivedAt: real,
    bestBid: Option<real>,
    bestAsk: Option<real>,
    microprice: Option<real>,
    bidDepth: Option<real>,
    askDepth: Option<real>
  )

  // ---- rounding to the nearest, ties to even ----

  function HalfEven(x: real): int {
    var n := x.Floor;
    var rest := x - n as real;
    if rest < 0.5 || (rest == 0.5 && n % 2 == 0) then n else n + 1
  }

  lemma HalfEvenOdd(x: real)
    ensures HalfEven(-x) == -HalfEven(x)
  {
    var n, k := x.Floor, (-x).Floor;
    if x == n as real {
      assert k == -n;
    } else {
      assert k == -n - 1;
    }
  }

  lemma HalfEvenBound(x: real, n: int)
    requires -(n as real) <= x <= n as real
    ensures -n <= HalfEven(x) <= n
  {}

  function Quantize(x: real, scale: real): real
    requires scale > 0.0
  {
    HalfEven(x * scale) as real / scale
  }

  lemma QuantizeOdd(x: real, scale: real)
    requires scale > 0.0
    ensures Quantize(-x, scale) == -Quantize(x, scale)
  {
    assert -x * scale == -(x * scale);
    HalfEvenOdd(x * scale);
    DivSum(0.0, HalfEven(x * scale) as real, scale);
    DivMul(0.0, scale);
  }

  // ---- the signals ----

  function Delta(first: Option<real>, last: Option<real>): Option<real> {
    if first.None? || last.None? then None else Some(last.value - first.value)
  }

  /** The shift of the fair value, else of the middle, else of the one side known. */
  function MidDelta(first: Sample, last: Sample): Option<real> {
    var bid, ask := Delta(first.bestBid, last.bestBid), Delta(first.bestAsk, last.bestAsk);
    var micro := Delta(first.microprice, last.microprice);
    if micro.Some? then micro
    else if bid.Some? && ask.Some? then Some((bid.value + ask.value) / 2.0)
    else if bid.Some? then bid
    else ask
  }

  function Elapsed(first: Sample, last: Sample): real {
    if last.receivedAt - first.receivedAt <= 0.0 then 1.0 else last.receivedAt - first.receivedAt
  }

  function Velocity(d: Option<real>, elapsed: real): Option<real>
    requires elapsed > 0.0
  {
    if d.None? then None else Some(Quantize(d.value / elapsed, 1000000.0))
  }

  function Clamp(units: real): real {
    if units > 5.0 then 5.0 else if units < -5.0 then -5.0 else units
  }

  function DirectionScore(d: Option<real>): real {
    if d.None? || d.value == 0.0 then 0.0 else Quantize(Clamp(d.value / 0.005) / 5.0, 10000.0)
  }

  function PriceMomentum(v: Option<real>): real {
    if v.None? || v.value == 0.0 then 0.0 else Quantize(Clamp(v.value / 0.001) / 5.0, 10000.0)
  }

  function FlowImbalance(bidDelta: Option<real>, askDelta: Option<real>): real {
    var bidConsumed, askConsumed := -bidDelta.GetOr(0.0), -askDelta.GetOr(0.0);
    var total := AbsReal(bidConsumed) + AbsReal(askConsumed);
    if total == 0.0 then 0.0 else Quantize((askConsumed - bidConsumed) / total, 10000.0)
  }

  datatype Label = Yes | No | Neutral

  function Votes(score: real, momentum: real, flow: real): nat {
    (if score >= 0.2 then 1 else 0) + (if momentum >= 0.2 then 1 else 0) + (if flow >= 0.2 then 1 else 0)
  }

  function VotesAgainst(score: real, momentum: real, flow: real): nat {
    (if score <= -0.2 then 1 else 0) + (if momentum <= -0.2 then 1 else 0) + (if flow <= -0.2 then 1 else 0)
  }

  function CompositeLabel(score: real, momentum: real, flow: real): Label {
    var yes, no := Votes(score, momentum, flow), VotesAgainst(score, momentum, flow);
    if yes >= 2 then Yes
    else if no >= 2 then No
    else if score >= 0.2 && no == 0 then Yes
    else if score <= -0.2 && yes == 0 then No
    else Neutral
  }

  predicate AnyBid(samples: seq<Sample>) { exists i :: 0 <= i < |samples| && samples[i].bestBid.Some? }

  predicate AnyAsk(samples: seq<Sample>) { exists i :: 0 <= i < |samples| && samples[i].bestAsk.Some? }

  function Confidence(samples: seq<Sample>): real {
    var base := (if |samples| < 10 then |samples| else 10) as real / 10.0;
    Quantize(if AnyBid(samples) && AnyAsk(samples) then base else base / 2.0, 100.0)
  }

  datatype Signal = Signal(score: real, momentum: real, flow: real, direction: Label, confidence: real)

  function ComputeSignal(samples: seq<Sample>): Signal
    requires |samples| > 0
  {
    var first, last := samples[0], samples[|samples| - 1];
    var mid := MidDelta(first, last);
    var score := DirectionScore(mid);
    var momentum := PriceMomentum(Velocity(mid, Elapsed(first, last)));
    var flow := FlowImbalance(Delta(first.bidDepth, last.bidDepth), Delta(first.askDepth, last.askDepth));
    Signal(score, momentum, flow, CompositeLabel(score, momentum, flow), Confidence(samples))
  }

  // ---- bounds ----

  lemma QuantizeBound(x: real)
    requires -1.0 <= x <= 1.0
    ensures -1.0 <= Quantize(x, 10000.0) <= 1.0
  {
    HalfEvenBound(x * 10000.0, 10000);
  }

  lemma FlowRatio(a: real, b: real)
    requires AbsReal(a) + AbsReal(b) != 0.0
    ensures -1.0 <= (b - a) / (AbsReal(a) + AbsReal(b)) <= 1.0
  {
    var total := AbsReal(a) + AbsReal(b);
    DivLe(b - a, total, total);
    DivLe(-total, b - a, total);
    DivMul(1.0, total);
    DivMul(-1.0, total);
    assert 1.0 * total == total && -1.0 * total == -total;
  }

  /** Every signal stays within [-1, 1] after rounding. */
  lemma SignalsBounded(samples: seq<Sample>)
    requires |samples| > 0
    ensures var s := ComputeSignal(samples);
      && -1.0 <= s.score <= 1.0 && -1.0 <= s.momentum <= 1.0 && -1.0 <= s.flow <= 1.0
  {
    hide Quantize, Confidence, CompositeLabel, Velocity;
    var first, last := samples[0], samples[|samples| - 1];
    var mid := MidDelta(first, last);
    var v := Velocity(mid, Elapsed(first, last));
    ScoreBounded(mid);
    MomentumBounded(v);
    FlowBounded(Delta(first.bidDepth, last.bidDepth), Delta(first.askDepth, last.askDepth));
    hide DirectionScore, PriceMomentum, FlowImbalance, MidDelta, Delta, Elapsed;
  }

  lemma ScoreBounded(d: Option<real>)
    ensures -1.0 <= DirectionScore(d) <= 1.0
  {
    hide Quantize;
    if d.Some? { QuantizeBound(Clamp(d.value / 0.005) / 5.0); }
  }

  lemma MomentumBounded(v: Option<real>)
    ensures -1.0 <= PriceMomentum(v) <= 1.0
  {
    hide Quantize;
    if v.Some? { QuantizeBound(Clamp(v.value / 0.001) / 5.0); }
  }

  lemma FlowBounded(bidDelta: Option<real>, askDelta: Option<real>)
    ensures -1.0 <= FlowImbalance(bidDelta, askDelta) <= 1.0
  {
    hide Quantize;
    var a, b := -bidDelta.GetOr(0.0), -askDelta.GetOr(0.0);
    if AbsReal(a) + AbsReal(b) != 0.0 {
      FlowRatio(a, b);
      QuantizeBound((b - a) / (AbsReal(a) + AbsReal(b)));
    }
  }

  // ---- the mirror ----

  function Negate(d: Option<real>): Option<real> {
    if d.None? then None else Some(-d.value)
  }

  lemma ScoreOdd(d: Option<real>)
    ensures DirectionScore(Negate(d)) == -DirectionScore(d)
  {
    hide Quantize;
    if d.Some? {
      assert Clamp(-d.value / 0.005) / 5.0 == -(Clamp(d.value / 0.005) / 5.0);
      QuantizeOdd(Clamp(d.value / 0.005) / 5.0, 10000.0);
    }
  }

  lemma MomentumOdd(v: Option<real>)
    ensures PriceMomentum(Negate(v)) == -PriceMomentum(v)
  {
    hide Quantize;
    if v.Some? {
      assert Clamp(-v.value / 0.001) / 5.0 == -(Clamp(v.value / 0.001) / 5.0);
      QuantizeOdd(Clamp(v.value / 0.001) / 5.0, 10000.0);
    }
  }

  lemma VelocityOdd(d: Option<real>, elapsed: real)
    requires elapsed > 0.0
    ensures Velocity(Negate(d), elapsed) == Negate(Velocity(d, elapsed))
  {
    hide Quantize;
    if d.Some? {
      DivSum(0.0, d.value, elapsed);
      DivMul(0.0, elapsed);
      QuantizeOdd(d.value / elapsed, 1000000.0);
    }
  }

  lemma FlowOdd(bidDelta: Option<real>, askDelta: Option<real>)
    ensures FlowImbalance(askDelta, bidDelta) == -FlowImbalance(bidDelta, askDelta)
  {
    hide Quantize;
    var a, b := -bidDelta.GetOr(0.0), -askDelta.GetOr(0.0);
    var total := AbsReal(a) + AbsReal(b);
    if total != 0.0 {
      DivSum(0.0, b - a, total);
      DivMul(0.0, total);
      assert (a - b) / total == -((b - a) / total);
      QuantizeOdd((b - a) / total, 10000.0);
    }
  }

  // ---- the flow in the mirror ----

  /** The flow before rounding. */
  function FlowRatioOf(bidDelta: real, askDelta: real): real {
    var total := AbsReal(bidDelta) + AbsReal(askDelta);
    if total == 0.0 then 0.0 else (bidDelta - askDelta) / total
  }

  lemma FlowIsRoundedRatio(bidDelta: real, askDelta: real)
    ensures FlowImbalance(Some(bidDelta), Some(askDelta)) == Quantize(FlowRatioOf(bidDelta, askDelta), 10000.0)
  {
    assert -askDelta - -bidDelta == bidDelta - askDelta;
    assert AbsReal(-bidDelta) == AbsReal(bidDelta) && AbsReal(-askDelta) == AbsReal(askDelta);
    assert Quantize(0.0, 10000.0) == 0.0;
    hide Quantize;
  }

  /** What a shift in a side's depth becomes in the mirror: the shift in its shares in the band, less itself. */
  function MirrorShift(shares: real, depth: real): real { shares - depth }

  /** The depth shifts of a mirrored window, from those of the window and the shifts in shares. */
  lemma DepthShiftMirrors(first: seq<Level>, last: seq<Level>, m: real, n: real)
    ensures BandDepth(FlipLevels(last), 1.0 - n) - BandDepth(FlipLevels(first), 1.0 - m) ==
            MirrorShift(BandShares(last, n) - BandShares(first, m), BandDepth(last, n) - BandDepth(first, m))
  {
    BandDepthMirror(first, m);
    BandDepthMirror(last, n);
    hide BandDepth, BandShares, FlipLevels;
  }

  /** The mirror's bids are these asks: its flow, before rounding. */
  function MirroredRatio(bidDepth: real, bidShares: real, askDepth: real, askShares: real): real {
    FlowRatioOf(MirrorShift(askShares, askDepth), MirrorShift(bidShares, bidDepth))
  }

  lemma OppositeRatiosExactly(a: real, b: real, c: real, d: real)
    requires AbsReal(a) + AbsReal(b) > 0.0 && AbsReal(c) + AbsReal(d) > 0.0
    ensures FlowRatioOf(c, d) == -FlowRatioOf(a, b) <==>
            Times(c - d, AbsReal(a) + AbsReal(b)) == Times(b - a, AbsReal(c) + AbsReal(d))
  {
    var t, u := AbsReal(a) + AbsReal(b), AbsReal(c) + AbsReal(d);
    hide AbsReal;
    OppositeQuotients(a - b, t, c - d, u);
    assert b - a == -(a - b);
  }

  lemma OppositeQuotients(n: real, t: real, k: real, u: real)
    requires t > 0.0 && u > 0.0
    ensures k / u == -(n / t) <==> Times(k, t) == Times(-n, u)
  {
    var x, y := n / t, k / u;
    DivMul(n, t);
    DivMul(k, u);
    MulPositive(u, t);
    assert k * t == y * (u * t) && -n * u == -(x * (u * t));
    SumTimes(y, x, u * t);
  }

  lemma SumTimes(y: real, x: real, w: real)
    requires w > 0.0
    ensures y == -x <==> y * w == -(x * w)
  {
    assert (y + x) * w == y * w + x * w;
    if y + x > 0.0 {
      MulPositive(y + x, w);
    } else if y + x < 0.0 {
      MulPositive(-(y + x), w);
      assert -(y + x) * w == -((y + x) * w);
    }
  }

  /** Where both windows saw any depth move, the mirrored flow is the opposite one before rounding exactly when the
      share-minus-depth shifts of the two sides are to each other as the depth shifts are, sides swapped. */
  lemma RatioMirrorsExactly(bidDepth: real, bidShares: real, askDepth: real, askShares: real)
    requires AbsReal(bidDepth) + AbsReal(askDepth) > 0.0
    requires AbsReal(askShares - askDepth) + AbsReal(bidShares - bidDepth) > 0.0
    ensures MirroredRatio(bidDepth, bidShares, askDepth, askShares) == -FlowRatioOf(bidDepth, askDepth) <==>
            Times((askShares - askDepth) - (bidShares - bidDepth), AbsReal(bidDepth) + AbsReal(askDepth)) ==
            Times(askDepth - bidDepth, AbsReal(askShares - askDepth) + AbsReal(bidShares - bidDepth))
  {
    hide FlowRatioOf, AbsReal, Times;
    OppositeRatiosExactly(bidDepth, askDepth, askShares - askDepth, bidShares - bidDepth);
  }

  /** The reported flows are opposite exactly when the mirrored ratio and the negated one round to the same ten
      thousandth; so they are whenever the ratios are opposite, and never when those miss by more than that. */
  lemma FlowMirrorsExactly(bidDepth: real, bidShares: real, askDepth: real, askShares: real)
    ensures var flow := FlowImbalance(Some(bidDepth), Some(askDepth));
      var mirrored := FlowImbalance(Some(MirrorShift(askShares, askDepth)), Some(MirrorShift(bidShares, bidDepth)));
      var x, y := FlowRatioOf(bidDepth, askDepth), MirroredRatio(bidDepth, bidShares, askDepth, askShares);
      && (mirrored == -flow <==> HalfEven(y * 10000.0) == HalfEven(-x * 10000.0))
      && (y == -x ==> mirrored == -flow)
      && (AbsReal(y + x) > 0.0001 ==> mirrored != -flow)
  {
    hide FlowImbalance, FlowRatioOf, MirrorShift, Quantize, HalfEven, AbsReal;
    var x, y := FlowRatioOf(bidDepth, askDepth), MirroredRatio(bidDepth, bidShares, askDepth, askShares);
    FlowIsRoundedRatio(bidDepth, askDepth);
    FlowIsRoundedRatio(MirrorShift(askShares, askDepth), MirrorShift(bidShares, bidDepth));
    OppositeRounding(x, y);
  }

  lemma OppositeRounding(x: real, y: real)
    ensures Quantize(y, 10000.0) == -Quantize(x, 10000.0) <==> HalfEven(y * 10000.0) == HalfEven(-x * 10000.0)
    ensures y == -x ==> Quantize(y, 10000.0) == -Quantize(x, 10000.0)
    ensures AbsReal(y + x) > 0.0001 ==> Quantize(y, 10000.0) != -Quantize(x, 10000.0)
  {
    hide Quantize, HalfEven;
    QuantizeOdd(x, 10000.0);
    SameRounding(y, -x);
    assert y - -x == y + x;
  }

  lemma SameRounding(y: real, z: real)
    ensures Quantize(y, 10000.0) == Quantize(z, 10000.0) <==> HalfEven(y * 10000.0) == HalfEven(z * 10000.0)
    ensures AbsReal(y - z) > 0.0001 ==> Quantize(y, 10000.0) != Quantize(z, 10000.0)
  {
    HalfEvenNear(y * 10000.0);
    HalfEvenNear(z * 10000.0);
    hide HalfEven;
  }

  lemma HalfEvenNear(x: real)
    ensures -0.5 <= HalfEven(x) as real - x <= 0.5
  {}

  /** The books of a window around 0.51 on whose end both sides have gained a hundred shares. */
  function BookBefore(): Snapshot {
    Snapshot([Level(0.50, 100.0)], [Level(0.52, 100.0)], Some(0.50), Some(0.52), Some(100.0), Some(100.0))
  }

  function BookAfter(): Snapshot {
    BookBefore().(bids := [Level(0.50, 100.0), Level(0.47, 100.0)], asks := [Level(0.52, 200.0)])
  }

  lemma AfterShifts()
    ensures BandDepth(BookAfter().bids, 0.51) - BandDepth(BookBefore().bids, 0.51) == 47.0
    ensures BandDepth(BookAfter().asks, 0.51) - BandDepth(BookBefore().asks, 0.51) == 52.0
    ensures BandShares(BookAfter().bids, 0.51) - BandShares(BookBefore().bids, 0.51) == 100.0
    ensures BandShares(BookAfter().asks, 0.51) - BandShares(BookBefore().asks, 0.51) == 100.0
  {
    var bids, more := BookBefore().bids, BookAfter().bids;
    var asks, larger := BookBefore().asks, BookAfter().asks;
    assert more[1..] == [Level(0.47, 100.0)] && bids[1..] == [] && asks[1..] == [] && larger[1..] == [] && more[1..][1..] == [];
  }

  lemma NegativeFlows()
    ensures FlowImbalance(Some(47.0), Some(52.0)) < 0.0 && FlowImbalance(Some(48.0), Some(53.0)) < 0.0
  {}

  /** It need not be: the bids gain at 0.47 and the asks at 0.52, and the flow is negative here and negative in the
      mirror too. */
  lemma FlowNotMirrored()
    ensures var first, last := BookBefore(), BookAfter();
      && Microprice(first) == Microprice(last) == Some(0.51)
      && var bidShift := BandDepth(last.bids, 0.51) - BandDepth(first.bids, 0.51);
         var askShift := BandDepth(last.asks, 0.51) - BandDepth(first.asks, 0.51);
         var bidMirror := BandDepth(Complement(last).bids, 0.49) - BandDepth(Complement(first).bids, 0.49);
         var askMirror := BandDepth(Complement(last).asks, 0.49) - BandDepth(Complement(first).asks, 0.49);
         && bidShift == 47.0 && askShift == 52.0 && bidMirror == 48.0 && askMirror == 53.0
         && FlowImbalance(Some(bidShift), Some(askShift)) < 0.0 && FlowImbalance(Some(bidMirror), Some(askMirror)) < 0.0
  {
    hide BandDepth, BandShares, FlipLevels, FlowImbalance;
    AfterShifts();
    DepthShiftMirrors(BookBefore().bids, BookAfter().bids, 0.51, 0.51);
    DepthShiftMirrors(BookBefore().asks, BookAfter().asks, 0.51, 0.51);
    NegativeFlows();
  }

  function SwapLabel(l: Label): Label {
    match l
    case Yes => No
    case No => Yes
    case Neutral => Neutral
  }

  /** Negating all three signals swaps the label. */
  lemma LabelOdd(score: real, momentum: real, flow: real)
    ensures CompositeLabel(-score, -momentum, -flow) == SwapLabel(CompositeLabel(score, momentum, flow))
  {}

  /** The sample the mirrored book gives: its fair value is the mirrored one; the depths come as they come. */
  predicate Mirrored(s: Sample, t: Sample) {
    && t.receivedAt == s.receivedAt && t.bestBid == Flip(s.bestAsk) && t.bestAsk == Flip(s.bestBid)
    && t.microprice == Flip(s.microprice)
  }

  lemma MidDeltaMirrors(first: Sample, last: Sample, f: Sample, l: Sample)
    requires Mirrored(first, f) && Mirrored(last, l)
    ensures MidDelta(f, l) == Negate(MidDelta(first, last))
  {}

  lemma ScoresMirror(first: Sample, last: Sample, f: Sample, l: Sample)
    requires Mirrored(first, f) && Mirrored(last, l)
    ensures DirectionScore(MidDelta(f, l)) == -DirectionScore(MidDelta(first, last))
    ensures PriceMomentum(Velocity(MidDelta(f, l), Elapsed(f, l))) ==
            -PriceMomentum(Velocity(MidDelta(first, last), Elapsed(first, last)))
  {
    hide Quantize, DirectionScore, PriceMomentum, Velocity;
    MidDeltaMirrors(first, last, f, l);
    var mid, elapsed := MidDelta(first, last), Elapsed(first, last);
    hide MidDelta;
    ScoreOdd(mid);
    VelocityOdd(mid, elapsed);
    MomentumOdd(Velocity(mid, elapsed));
  }

  lemma ConfidenceMirrors(samples: seq<Sample>, mirror: seq<Sample>)
    requires |samples| == |mirror| && forall i :: 0 <= i < |samples| ==> Mirrored(samples[i], mirror[i])
    ensures Confidence(mirror) == Confidence(samples)
  {
    hide Quantize;
    assert forall i :: 0 <= i < |samples| ==> Mirrored(samples[i], mirror[i]) && samples[i].bestBid.Some? == mirror[i].bestAsk.Some?
                                              && samples[i].bestAsk.Some? == mirror[i].bestBid.Some?;
    assert AnyBid(mirror) == AnyAsk(samples) && AnyAsk(mirror) == AnyBid(samples);
  }

  /** A window of mirrored samples has the opposite direction score and momentum and the same confidence, and,
      where its depth flow is opposite too, the opposite label. */
  lemma SignalMirrors(samples: seq<Sample>, mirror: seq<Sample>)
    requires |samples| == |mirror| > 0 && forall i :: 0 <= i < |samples| ==> Mirrored(samples[i], mirror[i])
    ensures var s, m := ComputeSignal(samples), ComputeSignal(mirror);
      && m.score == -s.score && m.momentum == -s.momentum && m.confidence == s.confidence
      && (m.flow == -s.flow ==> m.direction == SwapLabel(s.direction))
  {
    hide Quantize, DirectionScore, PriceMomentum, Velocity, MidDelta, FlowImbalance, CompositeLabel, Confidence, Elapsed, Delta;
    var n := |samples| - 1;
    assert Mirrored(samples[0], mirror[0]) && Mirrored(samples[n], mirror[n]);
    hide Mirrored;
    ScoresMirror(samples[0], samples[n], mirror[0], mirror[n]);
    ConfidenceMirrors(samples, mirror);
    var s := ComputeSignal(samples);
    LabelOdd(s.score, s.momentum, s.flow);
  }

  /** A sample of the complement book is the mirrored sample. */
  lemma ComplementSamples(b: Snapshot, at: real, s: Sample, t: Sample)
    requires s.receivedAt == t.receivedAt == at
    requires s.bestBid == b.bestBid && s.bestAsk == b.bestAsk && s.microprice == Microprice(b)
    requires t.bestBid == Complement(b).bestBid && t.bestAsk == Complement(b).bestAsk && t.microprice == Microprice(Complement(b))
    ensures Mirrored(s, t)
  {
    MicropriceMirrors(b);
    hide Microprice;
  }
}

/** Walking the ask side of a book: what a target amount buys level by level, and the inverse question of
    how much can be spent within a slippage. */
module BookWalkModel {
  import opened Prelude
  import opened RealFacts

  datatype Level = Level(price: real, size: real)

  function LevelValue(l: Level): real { Times(l.size, l.price) }

  ghost predicate Book(asks: seq<Level>) {
    && (forall i :: 0 <= i < |asks| ==> asks[i].price >= 0.0 && asks[i].size >= 0.0)
    && (forall i, j :: 0 <= i <= j < |asks| ==> asks[i].price <= asks[j].price)
  }

  /** All the money the asks could take. */
  function Value(asks: seq<Level>): real {
    if asks == [] then 0.0 else LevelValue(asks[0]) + Value(asks[1..])
  }

  /** The shares the walk takes from each level: whole levels until the one that covers what is left. */
  function Greedy(asks: seq<Level>, target: real): (fill: seq<real>)
    requires Book(asks)
    ensures |fill| == |asks|
  {
    if asks == [] then []
    else if LevelValue(asks[0]) >= target then
      [if asks[0].price > 0.0 then target / asks[0].price else 0.0] + Nothing(|asks| - 1)
    else [asks[0].size] + Greedy(asks[1..], target - LevelValue(asks[0]))
  }

  function Nothing(n: nat): (fill: seq<real>)
    ensures |fill| == n && forall i :: 0 <= i < n ==> fill[i] == 0.0
  {
    if n == 0 then [] else [0.0] + Nothing(n - 1)
  }

  /** The last level the walk touches. */
  function Worst(asks: seq<Level>, target: real): Option<real> {
    if asks == [] then None
    else if LevelValue(asks[0]) >= target then Some(asks[0].price)
    else
      var rest := Worst(asks[1..], target - LevelValue(asks[0]));
      if rest.Some? then rest else Some(asks[0].price)
  }

  function Shares(fill: seq<real>): real {
    if fill == [] then 0.0 else fill[0] + Shares(fill[1..])
  }

  function Spend(asks: seq<Level>, fill: seq<real>): real
    requires |fill| == |asks|
  {
    if asks == [] then 0.0 else Times(asks[0].price, fill[0]) + Spend(asks[1..], fill[1..])
  }

  /** Any way of buying within the level sizes. */
  ghost predicate Feasible(asks: seq<Level>, fill: seq<real>) {
    |fill| == |asks| && forall i :: 0 <= i < |asks| ==> 0.0 <= fill[i] <= asks[i].size
  }

  datatype ImpactRow = ImpactRow(
    target: real, filled: bool, fillable: Option<real>, avgPrice: Option<real>, worstPrice: Option<real>, slippageBps: Option<real>)

  function SlippageBps(avg: Option<real>, bestAsk: Option<real>): Option<real> {
    if avg.Some? && bestAsk.Some? && bestAsk.value > 0.0 then
      Some((avg.value - bestAsk.value) / bestAsk.value * 10000.0)
    else None
  }

  function RowFor(asks: seq<Level>, bestAsk: Option<real>, target: real): ImpactRow
    requires Book(asks) && target > 0.0
  {
    if Value(asks) < target then ImpactRow(target, false, Some(Value(asks)), None, None, None)
    else
      var shares := Shares(Greedy(asks, target));
      var avg := if shares > 0.0 then Some(target / shares) else None;
      ImpactRow(target, true, None, avg, Worst(asks, target), SlippageBps(avg, bestAsk))
  }

  // ---- the walk takes exactly the target ----

  lemma TailBook(asks: seq<Level>)
    requires Book(asks) && asks != []
    ensures Book(asks[1..]) && LevelValue(asks[0]) >= 0.0
  {
    MulNonNegative(asks[0].size, asks[0].price);
  }

  lemma {:induction false} NothingSpends(asks: seq<Level>)
    ensures Spend(asks, Nothing(|asks|)) == 0.0 && Shares(Nothing(|asks|)) == 0.0
  {
    if asks != [] {
      assert Nothing(|asks|)[1..] == Nothing(|asks| - 1);
      TimesLaws(asks[0].price, 0.0, 0.0);
      hide Times;
      NothingSpends(asks[1..]);
    }
  }

  lemma {:induction false} WorstIsAnAsk(asks: seq<Level>, target: real)
    requires Book(asks) && asks != []
    ensures Worst(asks, target).Some? && asks[0].price <= Worst(asks, target).value
  {
    hide Times, LevelValue;
    if LevelValue(asks[0]) < target && |asks| > 1 {
      TailBook(asks);
      WorstIsAnAsk(asks[1..], target - LevelValue(asks[0]));
      assert asks[0].price <= asks[1].price;
    }
  }

  lemma LevelFill(l: Level, target: real)
    requires l.price >= 0.0 && l.size >= 0.0 && 0.0 < target <= LevelValue(l)
    ensures l.price > 0.0 && 0.0 <= target / l.price <= l.size && Times(l.price, target / l.price) == target
  {
    TimesLaws(l.size, 0.0, 0.0);
    DivMul(target, l.price);
    DivMul(l.size, l.price);
    DivLe(0.0, target, l.price);
    DivLe(target, l.size * l.price, l.price);
    DivMul(0.0, l.price);
  }

  lemma FeasibleCons(asks: seq<Level>, fill: seq<real>)
    requires asks != [] && |fill| == |asks| && 0.0 <= fill[0] <= asks[0].size && Feasible(asks[1..], fill[1..])
    ensures Feasible(asks, fill)
  {
    forall i | 0 <= i < |asks| ensures 0.0 <= fill[i] <= asks[i].size {
      if i > 0 {
        assert fill[i] == fill[1..][i - 1] && asks[i] == asks[1..][i - 1];
      }
    }
  }

  lemma FeasibleTail(asks: seq<Level>, fill: seq<real>)
    requires Feasible(asks, fill) && asks != []
    ensures |fill| == |asks| && Feasible(asks[1..], fill[1..]) && 0.0 <= fill[0] <= asks[0].size
  {
    forall i | 0 <= i < |asks[1..]| ensures 0.0 <= fill[1..][i] <= asks[1..][i].size {
      assert fill[1..][i] == fill[i + 1] && asks[1..][i] == asks[i + 1];
    }
  }

  lemma NothingFeasible(asks: seq<Level>)
    requires Book(asks)
    ensures Feasible(asks, Nothing(|asks|))
  {}

  /** The walk's last level. */
  lemma GreedyStops(asks: seq<Level>, target: real)
    requires Book(asks) && asks != [] && 0.0 < target <= LevelValue(asks[0])
    ensures asks[0].price > 0.0 && Greedy(asks, target) == [target / asks[0].price] + Nothing(|asks| - 1)
    ensures Greedy(asks, target)[1..] == Nothing(|asks[1..]|)
    ensures Shares(Greedy(asks, target)) == target / asks[0].price
    ensures Feasible(asks, Greedy(asks, target)) && Spend(asks, Greedy(asks, target)) == target
  {
    TailBook(asks);
    LevelFill(asks[0], target);
    hide Times, LevelValue, Feasible;
    assert Greedy(asks, target) == [target / asks[0].price] + Nothing(|asks| - 1) by {
      assert LevelValue(asks[0]) >= target;
    }
    assert Greedy(asks, target)[1..] == Nothing(|asks[1..]|);
    NothingSpends(asks[1..]);
    NothingFeasible(asks[1..]);
    FeasibleCons(asks, Greedy(asks, target));
  }

  /** A whole level. */
  lemma GreedyGoesOn(asks: seq<Level>, target: real)
    requires Book(asks) && asks != [] && LevelValue(asks[0]) < target
    ensures Book(asks[1..])
    ensures var rest := Greedy(asks[1..], target - LevelValue(asks[0]));
      && Greedy(asks, target) == [asks[0].size] + rest && Greedy(asks, target)[1..] == rest
      && Shares(Greedy(asks, target)) == asks[0].size + Shares(rest)
      && Spend(asks, Greedy(asks, target)) == LevelValue(asks[0]) + Spend(asks[1..], rest)
  {
    TailBook(asks);
    assert Times(asks[0].price, asks[0].size) == LevelValue(asks[0]) by { TimesLaws(asks[0].price, asks[0].size, 0.0); }
    hide Times, LevelValue;
    var rest := Greedy(asks[1..], target - LevelValue(asks[0]));
    assert Greedy(asks, target)[1..] == rest;
  }

  /** When the asks are worth the target, the walk stays within the sizes and spends exactly the target. */
  lemma {:induction false} GreedySpendsTarget(asks: seq<Level>, target: real)
    requires Book(asks) && 0.0 < target <= Value(asks)
    ensures Feasible(asks, Greedy(asks, target)) && Spend(asks, Greedy(asks, target)) == target
  {
    hide Times, LevelValue, Feasible, Greedy, Spend;
    if LevelValue(asks[0]) >= target {
      GreedyStops(asks, target);
    } else {
      GreedyGoesOn(asks, target);
      GreedySpendsTarget(asks[1..], target - LevelValue(asks[0]));
      FeasibleCons(asks, Greedy(asks, target));
    }
  }

  // ---- no other purchase gets more ----

  /** What a purchase saves against paying w for every share. */
  function Saving(asks: seq<Level>, fill: seq<real>, w: real): real
    requires |fill| == |asks|
  {
    if asks == [] then 0.0 else Times(w - asks[0].price, fill[0]) + Saving(asks[1..], fill[1..], w)
  }

  lemma {:induction false} SavingIs(asks: seq<Level>, fill: seq<real>, w: real)
    requires |fill| == |asks|
    ensures Saving(asks, fill, w) == Times(w, Shares(fill)) - Spend(asks, fill)
  {
    if asks == [] {
      TimesLaws(w, 0.0, 0.0);
    } else {
      TimesLaws(w, asks[0].price, fill[0]);
      TimesLaws(w, fill[0], Shares(fill[1..]));
      hide Times;
      SavingIs(asks[1..], fill[1..], w);
    }
  }

  lemma {:induction false} NoSavingAbove(asks: seq<Level>, fill: seq<real>, w: real)
    requires Book(asks) && Feasible(asks, fill) && forall i :: 0 <= i < |asks| ==> w <= asks[i].price
    ensures Saving(asks, fill, w) <= 0.0
  {
    if asks != [] {
      TailBook(asks);
      FeasibleTail(asks, fill);
      TimesLe(w - asks[0].price, 0.0, fill[0]);
      TimesLaws(fill[0], 0.0, 0.0);
      hide Times, LevelValue;
      NoSavingAbove(asks[1..], fill[1..], w);
    }
  }

  lemma {:induction false} NothingSaves(asks: seq<Level>, w: real)
    ensures Saving(asks, Nothing(|asks|), w) == 0.0
  {
    NothingSpends(asks);
    SavingIs(asks, Nothing(|asks|), w);
    TimesLaws(w, 0.0, 0.0);
    hide Times;
  }

  lemma SavingCons(asks: seq<Level>, fill: seq<real>, w: real)
    requires |fill| == |asks| && asks != []
    ensures Saving(asks, fill, w) == Times(w - asks[0].price, fill[0]) + Saving(asks[1..], fill[1..], w)
  {}

  /** Seen from the worst price touched, the walk saves the most. */
  lemma {:induction false} Exchange(asks: seq<Level>, target: real, fill: seq<real>, w: real)
    requires Book(asks) && 0.0 < target <= Value(asks) && Feasible(asks, fill) && Worst(asks, target) == Some(w)
    ensures Saving(asks, fill, w) <= Saving(asks, Greedy(asks, target), w)
  {
    hide Times, LevelValue, Feasible, Greedy, Saving;
    var g := Greedy(asks, target);
    FeasibleTail(asks, fill);
    SavingCons(asks, fill, w);
    SavingCons(asks, g, w);
    if LevelValue(asks[0]) >= target {
      GreedyStops(asks, target);
      assert w - asks[0].price == 0.0;
      TimesLaws(fill[0], 0.0, 0.0);
      TimesLaws(g[0], 0.0, 0.0);
      TailBook(asks);
      NothingSaves(asks[1..], w);
      NoSavingAbove(asks[1..], fill[1..], w);
    } else {
      GreedyGoesOn(asks, target);
      WorstIsAnAsk(asks, target);
      TimesLe(fill[0], g[0], w - asks[0].price);
      assert Worst(asks[1..], target - LevelValue(asks[0])) == Some(w) by {
        if asks[1..] != [] { WorstIsAnAsk(asks[1..], target - LevelValue(asks[0])); }
      }
      Exchange(asks[1..], target - LevelValue(asks[0]), fill[1..], w);
    }
  }

  lemma {:induction false} WorstPositive(asks: seq<Level>, target: real)
    requires Book(asks) && 0.0 < target <= Value(asks)
    ensures asks != [] && Worst(asks, target).Some? && Worst(asks, target).value > 0.0
  {
    hide Times, LevelValue;
    TailBook(asks);
    if LevelValue(asks[0]) >= target {
      LevelFill(asks[0], target);
    } else {
      WorstPositive(asks[1..], target - LevelValue(asks[0]));
    }
  }

  lemma CancelFactor(w: real, a: real, b: real)
    requires w > 0.0 && Times(w, a) <= Times(w, b)
    ensures a <= b
  {
    assert w * (a - b) == w * a - w * b;
    if a > b {
      MulPositive(w, a - b);
    }
  }

  /** Among all purchases within the level sizes that spend at most the target, none buys more shares. */
  lemma WalkIsOptimal(asks: seq<Level>, target: real, fill: seq<real>)
    requires Book(asks) && 0.0 < target <= Value(asks)
    requires Feasible(asks, fill) && Spend(asks, fill) <= target
    ensures Shares(fill) <= Shares(Greedy(asks, target))
  {
    hide Times, LevelValue, Feasible, Greedy, Saving, Worst;
    WorstPositive(asks, target);
    GreedySpendsTarget(asks, target);
    var w, g := Worst(asks, target).value, Greedy(asks, target);
    Exchange(asks, target, fill, w);
    FeasibleTail(asks, fill);
    SavingIs(asks, fill, w);
    SavingIs(asks, g, w);
    CancelFactor(w, Shares(fill), Shares(g));
  }

  // ---- the prices of a filled row ----

  lemma AverageBetween(first: real, w: real, target: real, shares: real)
    requires 0.0 < target && Times(first, shares) <= target <= Times(w, shares) && 0.0 <= first <= w && w > 0.0
    ensures shares > 0.0 && first <= target / shares <= w
  {
    assert w * -shares == -(w * shares);
    if shares <= 0.0 {
      MulNonNegative(w, -shares);
    }
    DivLe(first * shares, target, shares);
    DivLe(target, w * shares, shares);
    DivMul(first, shares);
    DivMul(w, shares);
  }

  lemma FilledPrices(asks: seq<Level>, target: real)
    requires Book(asks) && 0.0 < target <= Value(asks)
    ensures asks != [] && Worst(asks, target).Some? && Shares(Greedy(asks, target)) > 0.0
    ensures asks[0].price <= target / Shares(Greedy(asks, target)) <= Worst(asks, target).value
  {
    hide Times, LevelValue, Feasible, Greedy, Saving, Worst;
    WorstPositive(asks, target);
    GreedySpendsTarget(asks, target);
    WorstIsAnAsk(asks, target);
    var w, g, first := Worst(asks, target).value, Greedy(asks, target), asks[0].price;
    NothingFeasible(asks);
    Exchange(asks, target, Nothing(|asks|), w);
    NothingSaves(asks, w);
    SavingIs(asks, g, w);
    NoSavingAbove(asks, g, first);
    SavingIs(asks, g, first);
    AverageBetween(first, w, target, Shares(g));
  }

  /** The row is filled exactly when the asks are worth the target; then the average price lies between the
      best ask level and the worst level touched, and shares at the average cost the target. */
  lemma FilledRow(asks: seq<Level>, bestAsk: Option<real>, target: real)
    requires Book(asks) && target > 0.0
    ensures var row := RowFor(asks, bestAsk, target);
      && (row.filled <==> target <= Value(asks))
      && (!row.filled ==> row.fillable == Some(Value(asks)))
      && (row.filled ==>
            && asks != [] && row.avgPrice.Some? && row.worstPrice.Some?
            && asks[0].price <= row.avgPrice.value <= row.worstPrice.value
            && Shares(Greedy(asks, target)) > 0.0
            && row.avgPrice.value == target / Shares(Greedy(asks, target)))
  {
    hide SlippageBps, Times, LevelValue, Greedy, Worst, Value, Shares;
    if target <= Value(asks) {
      FilledPrices(asks, target);
    }
  }

  // ---- growing targets ----

  function Scale(fill: seq<real>, k: real): (scaled: seq<real>)
    ensures |scaled| == |fill|
  {
    if fill == [] then [] else [Times(k, fill[0])] + Scale(fill[1..], k)
  }

  lemma ScaledAmount(k: real, x: real)
    requires 0.0 <= k <= 1.0 && x >= 0.0
    ensures 0.0 <= Times(k, x) <= x
  {
    MulLe(k, 1.0, x);
    MulNonNegative(k, x);
  }

  lemma {:induction false} ScaleSums(asks: seq<Level>, fill: seq<real>, k: real)
    requires Feasible(asks, fill) && 0.0 <= k <= 1.0
    ensures Feasible(asks, Scale(fill, k))
    ensures Shares(Scale(fill, k)) == Times(k, Shares(fill)) && Spend(asks, Scale(fill, k)) == Times(k, Spend(asks, fill))
  {
    TimesLaws(k, 0.0, 0.0);
    if fill != [] {
      var s := Scale(fill, k);
      FeasibleTail(asks, fill);
      var p, x, rest := asks[0].price, fill[0], Spend(asks[1..], fill[1..]);
      TimesLaws(k, x, Shares(fill[1..]));
      TimesLaws(k, Times(p, x), rest);
      TimesSwap(k, p, x);
      ScaledAmount(k, x);
      hide Times, Feasible;
      assert s[1..] == Scale(fill[1..], k);
      ScaleSums(asks[1..], fill[1..], k);
      FeasibleCons(asks, s);
    }
  }

  lemma {:induction false} WorstRises(asks: seq<Level>, target: real, more: real)
    requires Book(asks) && asks != [] && target <= more
    ensures Worst(asks, target).Some? && Worst(asks, more).Some? && Worst(asks, target).value <= Worst(asks, more).value
  {
    hide Times, LevelValue;
    WorstIsAnAsk(asks, target);
    WorstIsAnAsk(asks, more);
    if LevelValue(asks[0]) < target && |asks| > 1 {
      TailBook(asks);
      WorstRises(asks[1..], target - LevelValue(asks[0]), more - LevelValue(asks[0]));
    }
  }

  lemma AverageRises(t: real, u: real, a: real, b: real)
    requires 0.0 < t <= u && a > 0.0 && b > 0.0 && Times(t / u, b) <= a
    ensures t / a <= u / b
  {
    var k, y := t / u, u / b;
    DivMul(t, u);
    DivMul(u, b);
    DivLe(0.0, u, b);
    DivMul(0.0, b);
    assert k * (y * b) == y * (k * b) by { TimesSwap(k, y, b); }
    MulLe(k * b, a, y);
    DivLe(t, y * a, a);
    DivMul(y, a);
  }

  lemma Ratio(t: real, u: real)
    requires 0.0 < t <= u
    ensures 0.0 <= t / u <= 1.0 && Times(t / u, u) == t
  {
    DivLe(0.0, t, u);
    DivLe(t, u, u);
    DivMul(0.0, u);
    DivMul(1.0, u);
    DivMul(t, u);
  }

  /** Average and worst price never fall as the target grows. */
  lemma ImpactRises(asks: seq<Level>, bestAsk: Option<real>, target: real, more: real)
    requires Book(asks) && 0.0 < target <= more <= Value(asks)
    ensures var row, bigger := RowFor(asks, bestAsk, target), RowFor(asks, bestAsk, more);
      && row.avgPrice.Some? && bigger.avgPrice.Some? && row.avgPrice.value <= bigger.avgPrice.value
      && row.worstPrice.Some? && bigger.worstPrice.Some? && row.worstPrice.value <= bigger.worstPrice.value
  {
    hide SlippageBps, Times, LevelValue, Greedy, Worst, Value, Shares, Feasible, Scale;
    FilledRow(asks, bestAsk, target);
    FilledRow(asks, bestAsk, more);
    WorstRises(asks, target, more);
    GreedySpendsTarget(asks, more);
    Ratio(target, more);
    ScaleSums(asks, Greedy(asks, more), target / more);
    WalkIsOptimal(asks, target, Scale(Greedy(asks, more), target / more));
    AverageRises(target, more, Shares(Greedy(asks, target)), Shares(Greedy(asks, more)));
  }

  // ---- the inverse curve ----

  function ValueWithin(asks: seq<Level>, maxPrice: real): real {
    if asks == [] then 0.0
    else (if asks[0].price <= maxPrice then LevelValue(asks[0]) else 0.0) + ValueWithin(asks[1..], maxPrice)
  }

  lemma {:induction false} NothingWithin(asks: seq<Level>, maxPrice: real)
    requires forall i :: 0 <= i < |asks| ==> asks[i].price > maxPrice
    ensures ValueWithin(asks, maxPrice) == 0.0
  {
    hide Times, LevelValue;
    if asks != [] {
      NothingWithin(asks[1..], maxPrice);
    }
  }

  lemma {:induction false} WithinBounds(asks: seq<Level>, maxPrice: real)
    requires Book(asks)
    ensures 0.0 <= ValueWithin(asks, maxPrice) <= Value(asks)
  {
    hide Times, LevelValue;
    if asks != [] {
      TailBook(asks);
      WithinBounds(asks[1..], maxPrice);
    }
  }

  /** A target is within what a price limit offers exactly when the walk fills it without touching a dearer level. */
  lemma {:induction false} WithinExactly(asks: seq<Level>, target: real, maxPrice: real)
    requires Book(asks) && target > 0.0
    ensures target <= ValueWithin(asks, maxPrice) <==>
            target <= Value(asks) && Worst(asks, target).Some? && Worst(asks, target).value <= maxPrice
  {
    hide Times, LevelValue;
    if asks != [] {
      TailBook(asks);
      WorstIsAnAsk(asks, target);
      WithinBounds(asks, maxPrice);
      if asks[0].price > maxPrice {
        NothingWithin(asks, maxPrice);
      } else if LevelValue(asks[0]) >= target {
        WithinBounds(asks[1..], maxPrice);
      } else {
        WithinExactly(asks[1..], target - LevelValue(asks[0]), maxPrice);
      }
    }
  }

  function MaxPrice(bestAsk: real, slipBps: real): real { bestAsk * (1.0 + slipBps / 10000.0) }

  lemma SlippageBound(avg: real, best: real, slipBps: real)
    requires best > 0.0 && avg <= MaxPrice(best, slipBps)
    ensures (avg - best) / best * 10000.0 <= slipBps
  {
    assert MaxPrice(best, slipBps) == best + slipBps / 10000.0 * best;
    DivLe(avg - best, slipBps / 10000.0 * best, best);
    DivMul(slipBps / 10000.0, best);
  }

  /** The slippage of a filled row is what takes the best ask to the average price, in ten thousandths; it is missing
      exactly where the row is not filled or no positive best ask is known. */
  lemma SlippageExactly(asks: seq<Level>, bestAsk: Option<real>, target: real)
    requires Book(asks) && target > 0.0
    ensures var row := RowFor(asks, bestAsk, target);
      && (row.slippageBps.Some? <==> row.filled && bestAsk.Some? && bestAsk.value > 0.0)
      && (row.slippageBps.Some? ==>
            row.avgPrice.Some? && row.avgPrice.value == bestAsk.value * (1.0 + row.slippageBps.value / 10000.0))
  {
    FilledRow(asks, bestAsk, target);
    hide Times, LevelValue, Greedy, Worst, Value, Shares;
    var row := RowFor(asks, bestAsk, target);
    if row.slippageBps.Some? {
      DivMul(row.avgPrice.value - bestAsk.value, bestAsk.value);
    }
  }

  /** Whatever is within the amount fillable at some slippage, the walk fills at no more than that slippage. */
  lemma InverseImpact(asks: seq<Level>, bestAsk: real, target: real, slipBps: real)
    requires Book(asks) && bestAsk > 0.0 && 0.0 < target <= ValueWithin(asks, MaxPrice(bestAsk, slipBps))
    ensures var row := RowFor(asks, Some(bestAsk), target);
      && row.filled && row.worstPrice.Some? && row.worstPrice.value <= MaxPrice(bestAsk, slipBps)
      && row.slippageBps.Some? && row.slippageBps.value <= slipBps
  {
    hide MaxPrice, Times, LevelValue, Greedy, Worst, Value, Shares, ValueWithin;
    WithinExactly(asks, target, MaxPrice(bestAsk, slipBps));
    FilledRow(asks, Some(bestAsk), target);
    var avg := RowFor(asks, Some(bestAsk), target).avgPrice.value;
    SlippageBound(avg, bestAsk, slipBps);
  }
}

/** The two loops over the sorted asks. */
module BookWalk {
  import opened Prelude
  import opened RealFacts
  import opened BookWalkModel

  /** What is left to walk after some whole levels, against the walk from the start. */
  ghost predicate Underway(asks: seq<Level>, target: real, i: int, spent: real, shares: real, last: Option<real>)
    requires Book(asks)
  {
    && 0 <= i <= |asks| && Book(asks[i..])
    && spent + Value(asks[i..]) == Value(asks)
    && Shares(Greedy(asks, target)) == shares + Shares(Greedy(asks[i..], target - spent))
    && Worst(asks, target) == if i < |asks| then Worst(asks[i..], target - spent) else last
  }

  lemma StepOver(asks: seq<Level>, target: real, i: int, spent: real, shares: real, last: Option<real>)
    requires Book(asks) && i < |asks| && Underway(asks, target, i, spent, shares, last)
    requires spent + LevelValue(asks[i]) < target
    ensures Underway(asks, target, i + 1, spent + LevelValue(asks[i]), shares + asks[i].size, Some(asks[i].price))
  {
    hide Times, LevelValue, Book, Greedy, Shares;
    var rest, left := asks[i..], target - spent;
    assert rest[0] == asks[i] && rest[1..] == asks[i + 1..];
    GreedyGoesOn(rest, left);
    assert left - LevelValue(rest[0]) == target - (spent + LevelValue(asks[i]));
    if i + 1 < |asks| {
      WorstIsAnAsk(rest[1..], left - LevelValue(rest[0]));
    } else {
      assert rest[1..] == [] && Worst(rest, left) == Some(asks[i].price);
    }
  }

  lemma StopsHere(asks: seq<Level>, target: real, i: int, spent: real, shares: real, last: Option<real>)
    requires Book(asks) && i < |asks| && Underway(asks, target, i, spent, shares, last)
    requires spent < target <= spent + LevelValue(asks[i])
    ensures asks[i].price > 0.0 && target <= Value(asks) && Worst(asks, target) == Some(asks[i].price)
    ensures Shares(Greedy(asks, target)) == shares + (target - spent) / asks[i].price
  {
    hide Times, LevelValue, Book, Greedy, Shares;
    var rest, left := asks[i..], target - spent;
    TailBook(rest);
    assert rest[0] == asks[i];
    GreedyStops(rest, left);
    ValueNonNegative(rest[1..]);
  }

  lemma {:induction false} ValueNonNegative(asks: seq<Level>)
    requires Book(asks)
    ensures Value(asks) >= 0.0
  {
    hide Times, LevelValue;
    if asks != [] {
      TailBook(asks);
      ValueNonNegative(asks[1..]);
    }
  }

  lemma SetOut(asks: seq<Level>, target: real)
    requires Book(asks)
    ensures Underway(asks, target, 0, 0.0, 0.0, None)
  {
    assert asks[0..] == asks && target - 0.0 == target;
  }

  lemma RanOut(asks: seq<Level>, target: real, spent: real, shares: real, last: Option<real>)
    requires Book(asks) && Underway(asks, target, |asks|, spent, shares, last)
    ensures Value(asks) == spent
  {
    assert asks[|asks|..] == [];
  }

  /** One row of the impact table. */
  method ImpactRowFor(asks: seq<Level>, bestAsk: Option<real>, target: real) returns (row: ImpactRow)
    requires Book(asks) && target > 0.0
    ensures row == RowFor(asks, bestAsk, target)
  {
    hide Times, LevelValue, SlippageBps, Greedy, Worst, Shares, Value;
    var spent, shares := 0.0, 0.0;
    var last: Option<real> := None;
    var filled := false;
    var i := 0;
    SetOut(asks, target);
    while i < |asks| && !filled
      invariant 0 <= i <= |asks|
      invariant !filled ==> spent < target && Underway(asks, target, i, spent, shares, last)
      invariant filled ==> spent == target <= Value(asks)
      invariant filled ==> shares == Shares(Greedy(asks, target)) && last == Worst(asks, target)
      decreases |asks| - i, !filled
    {
      var level := asks[i];
      if spent + LevelValue(level) >= target {
        StopsHere(asks, target, i, spent, shares, last);
        var remaining := target - spent;
        shares := shares + remaining / level.price;
        last := Some(level.price);
        spent := target;
        filled := true;
      } else {
        StepOver(asks, target, i, spent, shares, last);
        spent := spent + LevelValue(level);
        shares := shares + level.size;
        last := Some(level.price);
        i := i + 1;
      }
    }
    if spent < target {
      RanOut(asks, target, spent, shares, last);
      return ImpactRow(target, false, Some(spent), None, None, None);
    }
    var avg := if shares > 0.0 then Some(spent / shares) else None;
    row := ImpactRow(target, true, None, avg, last, SlippageBps(avg, bestAsk));
  }

  /** What a slippage limit lets one spend: None for the price limit when there is no usable best ask. */
  method FillableWithin(asks: seq<Level>, bestAsk: Option<real>, slipBps: real) returns (maxPrice: Option<real>, usdc: real)
    requires Book(asks)
    ensures bestAsk.None? || bestAsk.value <= 0.0 ==> maxPrice == None && usdc == 0.0
    ensures bestAsk.Some? && bestAsk.value > 0.0 ==>
              maxPrice == Some(MaxPrice(bestAsk.value, slipBps)) && usdc == ValueWithin(asks, MaxPrice(bestAsk.value, slipBps))
  {
    if bestAsk.None? || bestAsk.value <= 0.0 {
      return None, 0.0;
    }
    hide LevelValue;
    var limit := MaxPrice(bestAsk.value, slipBps);
    hide MaxPrice;
    usdc := 0.0;
    var i := 0;
    assert asks[0..] == asks;
    while i < |asks|
      invariant 0 <= i <= |asks|
      invariant usdc + ValueWithin(asks[i..], limit) == ValueWithin(asks, limit)
    {
      assert asks[i..][0] == asks[i] && asks[i..][1..] == asks[i + 1..];
      if asks[i].price > limit {
        NothingWithin(asks[i..], limit);
        break;
      }
      usdc := usdc + LevelValue(asks[i]);
      i := i + 1;
    }
    return Some(limit), usdc;
  }
}

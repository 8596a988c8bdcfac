/** The authority refresh: every position's open figures rebuilt from the open orders. */
module Rebuild {
  import opened Prelude
  import opened AccountModel
  import opened ProjectionModel

  type Targets = Dict<PositionKey, Option<string>>

  /** Every position's market token, with the position's slug ... */
  function PositionTargets(ks: seq<PositionKey>, positions: map<PositionKey, Position>, acc: Targets): Targets {
    if ks == [] then acc
    else if ks[0] !in positions then PositionTargets(ks[1..], positions, acc)
    else
      var p := positions[ks[0]];
      PositionTargets(ks[1..], positions, acc.Put((p.conditionId, p.tokenId), p.marketSlug))
  }

  /** ... then every order's that is not there yet, with the first such order's slug. */
  function OrderTargets(ks: seq<string>, orders: map<string, Order>, acc: Targets): Targets {
    if ks == [] then acc
    else if ks[0] !in orders || (orders[ks[0]].conditionId, orders[ks[0]].tokenId) in acc.items then
      OrderTargets(ks[1..], orders, acc)
    else
      var o := orders[ks[0]];
      OrderTargets(ks[1..], orders, acc.Put((o.conditionId, o.tokenId), o.marketSlug))
  }

  function TargetsOf(b: Book): Targets {
    OrderTargets(b.orders.order, b.orders.items, PositionTargets(b.positions.order, b.positions.items, EmptyDict()))
  }

  /** One turn of the loop: the position's own bookkeeping fields are handed back to it. */
  function RefreshOne(b: Book, k: PositionKey, slug: Option<string>): Book {
    var p := b.PositionOf(k.0, k.1);
    RefreshCoverage(b, k.0, k.1,
      if p.Some? && Truthy(p.value.marketSlug) then p.value.marketSlug else slug,
      if p.None? then None else p.value.lastOrderId,
      if p.None? then None else p.value.lastTradeId,
      if p.None? then "authority_refresh" else p.value.confirmationStatus,
      if p.None? then None else p.value.updatedAt)
  }

  function RefreshEach(b: Book, ks: seq<PositionKey>, targets: map<PositionKey, Option<string>>): Book
    requires forall k :: k in ks ==> k in targets
    decreases |ks|
  {
    if ks == [] then b else RefreshEach(RefreshOne(b, ks[0], targets[ks[0]]), ks[1..], targets)
  }

  function RebuildAll(b: Book): Book
    requires TargetsOf(b).Valid()
  {
    RefreshEach(b, TargetsOf(b).order, TargetsOf(b).items)
  }

  /** What the rebuild owes one market token: its position with only the three open figures replaced, or,
      where orders rest without a position, a new empty position carrying the figures. */
  function Rebuilt(b: Book, k: PositionKey, slug: Option<string>): Option<Position> {
    var buys, sells := Total(b, k.0, k.1, Buy), Total(b, k.0, k.1, Sell);
    match b.PositionOf(k.0, k.1)
    case Some(p) => Some(p.(openBuy := buys, openSell := sells, pendingBuy := buys))
    case None =>
      if buys <= 0.0 && sells <= 0.0 then None
      else Some(Position(k.0, k.1, 0.0, 0.0, slug, buys, sells, buys, 0.0, None, None, "authority_refresh", None, NO_AUTHORITY))
  }

  /** A target made from a position carries that position's slug. */
  ghost predicate OwnSlug(b: Book, k: PositionKey, slug: Option<string>) {
    b.PositionOf(k.0, k.1).Some? ==> slug == b.PositionOf(k.0, k.1).value.marketSlug
  }

  /** What one turn writes, before it is merged into the stored position. */
  function Refreshed(b: Book, k: PositionKey, slug: Option<string>): Position {
    var buys, sells := Total(b, k.0, k.1, Buy), Total(b, k.0, k.1, Sell);
    match b.PositionOf(k.0, k.1)
    case Some(p) => p.(marketSlug := OrElse(p.marketSlug, if Truthy(p.marketSlug) then p.marketSlug else slug),
                       openBuy := buys, openSell := sells, pendingBuy := buys, authority := NO_AUTHORITY)
    case None => Position(k.0, k.1, 0.0, 0.0, OrElse(slug, slug), buys, sells, buys, 0.0, None, None, "authority_refresh", None,
                          NO_AUTHORITY)
  }

  lemma RefreshOneWrites(b: Book, k: PositionKey, slug: Option<string>)
    ensures RefreshOne(b, k, slug) ==
            if Rebuilt(b, k, slug).None? then b else b.UpsertPosition(Refreshed(b, k, slug))
  {
    hide Total, Merge;
  }

  lemma MergeRebuilds(b: Book, k: PositionKey, slug: Option<string>)
    requires Rebuilt(b, k, slug).Some? && OwnSlug(b, k, slug)
    requires b.PositionOf(k.0, k.1).Some? ==> (b.PositionOf(k.0, k.1).value.conditionId, b.PositionOf(k.0, k.1).value.tokenId) == k
    ensures var p := Refreshed(b, k, slug);
      (p.conditionId, p.tokenId) == k && Merge(b.positions.Get(k), p) == Rebuilt(b, k, slug).value
  {
    hide Total;
    assert (k.0, k.1) == k;
  }

  lemma RefreshOneRebuilds(b: Book, k: PositionKey, slug: Option<string>)
    requires Keyed(b) && OwnSlug(b, k, slug)
    ensures var n := RefreshOne(b, k, slug);
      && Keyed(n) && n.orders == b.orders
      && n.PositionOf(k.0, k.1) == Rebuilt(b, k, slug)
      && (forall j :: j != k ==> n.positions.Get(j) == b.positions.Get(j))
      && (n.PositionOf(k.0, k.1) == b.PositionOf(k.0, k.1) ==> n == b)
  {
    hide Merge, RefreshOne, Refreshed, OrderKey, OwnSlug;
    assert (k.0, k.1) == k;
    RefreshOneWrites(b, k, slug);
    if Rebuilt(b, k, slug).Some? {
      var n := b.UpsertPosition(Refreshed(b, k, slug));
      MergeRebuilds(b, k, slug);
      assert n.positions.items == b.positions.items[k := Rebuilt(b, k, slug).value];
      if n.PositionOf(k.0, k.1) == b.PositionOf(k.0, k.1) {
        assert n.positions.items == b.positions.items;
      }
    }
  }

  lemma RebuiltFrame(a: Book, b: Book, k: PositionKey, slug: Option<string>)
    requires a.orders == b.orders && a.positions.Get(k) == b.positions.Get(k)
    ensures Rebuilt(a, k, slug) == Rebuilt(b, k, slug) && (OwnSlug(a, k, slug) <==> OwnSlug(b, k, slug))
  {
    assert (k.0, k.1) == k;
  }

  lemma {:induction false} RefreshEachRebuilds(b: Book, ks: seq<PositionKey>, targets: map<PositionKey, Option<string>>)
    requires Keyed(b) && NoDup(ks) && forall k :: k in ks ==> k in targets && OwnSlug(b, k, targets[k])
    ensures var n := RefreshEach(b, ks, targets);
      && Keyed(n) && n.orders == b.orders
      && (forall k :: k in ks ==> n.positions.Get(k) == Rebuilt(b, k, targets[k]))
      && (forall k :: k !in ks ==> n.positions.Get(k) == b.positions.Get(k))
    decreases |ks|
  {
    if ks != [] {
      var m := RefreshOne(b, ks[0], targets[ks[0]]);
      RefreshOneRebuilds(b, ks[0], targets[ks[0]]);
      assert m.positions.Get(ks[0]) == Rebuilt(b, ks[0], targets[ks[0]]) by {
        assert (ks[0].0, ks[0].1) == ks[0];
      }
      assert ks[0] !in ks[1..];
      forall k | k in ks[1..] ensures Rebuilt(m, k, targets[k]) == Rebuilt(b, k, targets[k]) && OwnSlug(m, k, targets[k]) {
        RebuiltFrame(m, b, k, targets[k]);
      }
      RefreshEachRebuilds(m, ks[1..], targets);
      assert forall k :: k in ks <==> k == ks[0] || k in ks[1..];
    }
  }

  // ---- which market tokens are targets ----

  lemma {:induction false} PositionTargetsExact(ks: seq<PositionKey>, b: Book, acc: Targets)
    requires Keyed(b) && acc.Valid() && forall k :: k in ks ==> k in b.positions.items
    ensures var n := PositionTargets(ks, b.positions.items, acc);
      && n.Valid()
      && (forall k :: k in n.items <==> k in acc.items || k in ks)
      && (forall k :: k in ks ==> n.items[k] == b.positions.items[k].marketSlug)
      && (forall k :: k in acc.items && k !in ks ==> n.items[k] == acc.items[k])
  {
    if ks != [] {
      var p := b.positions.items[ks[0]];
      assert (p.conditionId, p.tokenId) == ks[0];
      PositionTargetsExact(ks[1..], b, acc.Put(ks[0], p.marketSlug));
      assert forall k :: k in ks <==> k == ks[0] || k in ks[1..];
    }
  }

  lemma {:induction false} OrderTargetsExact(ks: seq<string>, orders: map<string, Order>, acc: Targets)
    requires acc.Valid() && forall k :: k in ks ==> k in orders
    ensures var n := OrderTargets(ks, orders, acc);
      && n.Valid()
      && (forall k :: k in acc.items ==> k in n.items && n.items[k] == acc.items[k])
      && (forall j :: j in ks ==> (orders[j].conditionId, orders[j].tokenId) in n.items)
  {
    if ks != [] {
      var o := orders[ks[0]];
      var k := (o.conditionId, o.tokenId);
      OrderTargetsExact(ks[1..], orders, if k in acc.items then acc else acc.Put(k, o.marketSlug));
      assert forall j :: j in ks <==> j == ks[0] || j in ks[1..];
    }
  }

  lemma {:induction false} SumNeedsOrder(ks: seq<string>, orders: map<string, Order>, c: string, t: string, side: Side)
    requires forall k :: k in ks && k in orders ==> !orders[k].In(c, t)
    ensures SumOver(ks, orders, c, t, side) == 0.0
  {
    if ks != [] {
      SumNeedsOrder(ks[1..], orders, c, t, side);
    }
  }

  /** Anything that is not a target has neither a position nor an open figure. */
  lemma TargetsCover(b: Book)
    requires Keyed(b)
    ensures TargetsOf(b).Valid()
    ensures forall k :: k in TargetsOf(b).items ==> OwnSlug(b, k, TargetsOf(b).items[k])
    ensures forall k :: k !in TargetsOf(b).items ==> b.positions.Get(k) == None && Rebuilt(b, k, None) == None
  {
    var first := PositionTargets(b.positions.order, b.positions.items, EmptyDict());
    PositionTargetsExact(b.positions.order, b, EmptyDict());
    OrderTargetsExact(b.orders.order, b.orders.items, first);
    forall k | k !in TargetsOf(b).items ensures b.positions.Get(k) == None && Rebuilt(b, k, None) == None {
      assert k !in first.items;
      SumNeedsOrder(b.orders.order, b.orders.items, k.0, k.1, Buy);
      SumNeedsOrder(b.orders.order, b.orders.items, k.0, k.1, Sell);
      assert (k.0, k.1) == k;
    }
  }

  // ---- the main results ----

  /** After the refresh the open figures of every position are the sums over its open orders, the orders
      are untouched, every position kept everything else it held, and new positions appear exactly where
      open shares rest without one. */
  lemma RebuildExact(b: Book, k: PositionKey)
    requires Keyed(b) && TargetsOf(b).Valid()
    ensures var n := RebuildAll(b);
      && Keyed(n) && n.orders == b.orders
      && (n.positions.Get(k).Some? ==>
            var p := n.positions.Get(k).value;
            p.openSell == Total(n, k.0, k.1, Sell) && p.openBuy == p.pendingBuy == Total(n, k.0, k.1, Buy))
      && (b.positions.Get(k).Some? ==>
            var p := b.positions.Get(k).value;
            n.positions.Get(k) == Some(p.(openBuy := Total(b, k.0, k.1, Buy), openSell := Total(b, k.0, k.1, Sell),
                                          pendingBuy := Total(b, k.0, k.1, Buy))))
      && (b.positions.Get(k).None? ==>
            (n.positions.Get(k).Some? <==> Total(b, k.0, k.1, Buy) > 0.0 || Total(b, k.0, k.1, Sell) > 0.0))
  {
    TargetsCover(b);
    RefreshEachRebuilds(b, TargetsOf(b).order, TargetsOf(b).items);
    assert (k.0, k.1) == k;
    if k !in TargetsOf(b).items {
      assert b.positions.Get(k) == None && Rebuilt(b, k, None) == None;
    }
  }

  lemma {:induction false} RefreshEachIdle(b: Book, ks: seq<PositionKey>, targets: map<PositionKey, Option<string>>)
    requires Keyed(b) && forall k :: k in ks ==> k in targets && OwnSlug(b, k, targets[k])
    requires forall k :: k in ks ==> Rebuilt(b, k, targets[k]) == b.positions.Get(k)
    ensures RefreshEach(b, ks, targets) == b
    decreases |ks|
  {
    if ks != [] {
      assert (ks[0].0, ks[0].1) == ks[0];
      RefreshOneRebuilds(b, ks[0], targets[ks[0]]);
      RefreshEachIdle(b, ks[1..], targets);
    }
  }

  /** A second refresh changes nothing. */
  lemma RebuildIdempotent(b: Book)
    requires Keyed(b) && TargetsOf(b).Valid()
    ensures TargetsOf(RebuildAll(b)).Valid() && RebuildAll(RebuildAll(b)) == RebuildAll(b)
  {
    var n := RebuildAll(b);
    TargetsCover(b);
    RefreshEachRebuilds(b, TargetsOf(b).order, TargetsOf(b).items);
    TargetsCover(n);
    forall k | k in TargetsOf(n).order ensures Rebuilt(n, k, TargetsOf(n).items[k]) == n.positions.Get(k) {
      RebuildExact(b, k);
      assert (k.0, k.1) == k;
    }
    RefreshEachIdle(n, TargetsOf(n).order, TargetsOf(n).items);
  }

  // ---- the rebuilt figures in terms of the orders' own fields ----

  /** The open-buy figure a refresh leaves, nothing where it leaves no position. */
  function RebuiltBuy(b: Book, k: PositionKey): real
    requires TargetsOf(b).Valid()
  {
    var p := RebuildAll(b).positions.Get(k);
    if p.Some? then p.value.openBuy else 0.0
  }

  lemma {:induction false} BuysNonNegative(ks: seq<string>, orders: map<string, Order>, c: string, t: string)
    ensures SumOver(ks, orders, c, t, Buy) >= 0.0
  {
    if ks != [] {
      BuysNonNegative(ks[1..], orders, c, t);
    }
  }

  lemma RebuiltBuyIsTotal(b: Book, k: PositionKey)
    requires Keyed(b)
    ensures TargetsOf(b).Valid() && RebuiltBuy(b, k) == Total(b, k.0, k.1, Buy)
    ensures var p := RebuildAll(b).positions.Get(k); p.Some? ==> p.value.pendingBuy == p.value.openBuy
  {
    TargetsCover(b);
    RebuildExact(b, k);
    BuysNonNegative(b.orders.order, b.orders.items, k.0, k.1);
    hide Keyed, TargetsOf, RebuildAll, SumOver;
  }

  /** A fill of x of an open buy's remaining shares lowers the rebuilt open-buy figure of its market token by exactly x
      and leaves every other's. */
  lemma FillLowersRebuiltBuy(b: Book, id: string, next: Order, x: real, k: PositionKey)
    requires Keyed(b) && Keyed(b.UpsertOrder(next)) && Amends(b, id, next)
    requires var o := b.orders.items[id];
      o.Open() && next.Open() && o.remaining.Some? && next.remaining == Some(o.remaining.value - x) && 0.0 <= x <= o.remaining.value
    ensures TargetsOf(b).Valid() && TargetsOf(b.UpsertOrder(next)).Valid()
    ensures var o := b.orders.items[id];
      RebuiltBuy(b.UpsertOrder(next), k) == RebuiltBuy(b, k) - (if o.In(k.0, k.1) && o.side == Buy then x else 0.0)
  {
    RebuiltBuyIsTotal(b, k);
    RebuiltBuyIsTotal(b.UpsertOrder(next), k);
    FillLowersTotal(b, id, next, x, k.0, k.1, Buy);
    hide Keyed, TargetsOf, RebuiltBuy, SumOver, OrderKey;
  }

  /** The same order with its size as what remains leaves the rebuilt figure, if its remainder was not known. */
  lemma UnknownRemainderRebuilt(b: Book, id: string, next: Order, k: PositionKey)
    requires Keyed(b) && Keyed(b.UpsertOrder(next)) && Amends(b, id, next)
    requires var o := b.orders.items[id];
      o.Open() && next.Open() && o.remaining == None && next.remaining == Some(o.size.GetOr(0.0))
    ensures TargetsOf(b).Valid() && TargetsOf(b.UpsertOrder(next)).Valid() && RebuiltBuy(b.UpsertOrder(next), k) == RebuiltBuy(b, k)
  {
    RebuiltBuyIsTotal(b, k);
    RebuiltBuyIsTotal(b.UpsertOrder(next), k);
    UnknownRemainderCountsSize(b, id, next, k.0, k.1, Buy);
    hide Keyed, TargetsOf, RebuiltBuy, SumOver, OrderKey;
  }

  /** And a buy that is closed or of which nothing remains is as good as gone. */
  lemma SpentBuyRebuilt(b: Book, id: string, k: PositionKey)
    requires Keyed(b) && Keyed(b.RemoveOrder(id)) && id in b.orders.items
    requires var o := b.orders.items[id]; !o.Open() || (o.remaining.Some? && o.remaining.value <= 0.0)
    ensures TargetsOf(b).Valid() && TargetsOf(b.RemoveOrder(id)).Valid() && RebuiltBuy(b.RemoveOrder(id), k) == RebuiltBuy(b, k)
  {
    RebuiltBuyIsTotal(b, k);
    RebuiltBuyIsTotal(b.RemoveOrder(id), k);
    SpentCountsNothing(b, id, k.0, k.1, Buy);
    hide Keyed, TargetsOf, RebuiltBuy, SumOver, OrderKey;
  }
}

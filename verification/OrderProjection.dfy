/** The projector, the reconcile action applier and the authority refresher, writing to the account store
    step by step; each call leaves the book its specification function describes. */
module OrderProjection {
  import opened Prelude
  import opened AccountModel
  import opened AccountState
  import opened ProjectionModel
  import opened Rebuild

  /** The search for the order a result speaks of. */
  method ExistingOrderSize(b: Book, r: OrderResult) returns (size: real)
    ensures size == ExistingSize(b, r)
  {
    var ks, orders := b.orders.order, b.orders.items;
    var i := 0;
    while i < |ks|
      invariant 0 <= i <= |ks| && FoundSize(ks[i..], orders, r) == FoundSize(ks, orders, r)
    {
      assert ks[i..][1..] == ks[i + 1..];
      if ks[i] in orders && orders[ks[i]].In(r.conditionId, r.tokenId) {
        var o := orders[ks[i]];
        if o.orderId == r.orderId
           || (r.orderId == None && o.idempotencyKey == if r.hasIntent then r.intentKey else None)
        {
          return NonZeroOr(o.remaining, NonZeroOr(o.size, Some(0.0))).value;
        }
      }
      i := i + 1;
    }
    return 0.0;
  }

  method FindOpenOrder(b: Book, c: string, t: string, id: string) returns (found: Option<Order>)
    ensures found == FindOpen(b.orders.order, b.orders.items, c, t, id)
  {
    var ks, orders := b.orders.order, b.orders.items;
    var i := 0;
    while i < |ks|
      invariant 0 <= i <= |ks| && FindOpen(ks[i..], orders, c, t, id) == FindOpen(ks, orders, c, t, id)
    {
      assert ks[i..][1..] == ks[i + 1..];
      if ks[i] in orders && orders[ks[i]].In(c, t) {
        var o := orders[ks[i]];
        if OrElse(o.orderId, o.idempotencyKey) == Some(id) {
          return Some(o);
        }
      }
      i := i + 1;
    }
    return None;
  }

  /** The sum the rebuild takes over the open buy orders. */
  method OpenBuyShares(b: Book, c: string, t: string) returns (total: real)
    requires forall k :: k in b.orders.order ==> k in b.orders.items
    ensures total == Total(b, c, t, Buy)
  {
    total := 0.0;
    var ks, orders := b.orders.order, b.orders.items;
    var i := 0;
    while i < |ks|
      invariant 0 <= i <= |ks|
      invariant total + SumOver(ks[i..], orders, c, t, Buy) == SumOver(ks, orders, c, t, Buy)
    {
      var o := orders[ks[i]];
      SumStep(ks, orders, i, c, t, Buy);
      if o.In(c, t) && o.side == Buy && o.Open() {
        total := total + OpenShares(o).GetOr(0.0);
      }
      i := i + 1;
    }
  }

  /** First every position's market token ... */
  method TargetPositions(ks: seq<PositionKey>, positions: map<PositionKey, Position>) returns (targets: Targets)
    requires forall k :: k in ks ==> k in positions
    ensures targets == PositionTargets(ks, positions, EmptyDict())
  {
    targets := EmptyDict();
    var i := 0;
    while i < |ks|
      invariant 0 <= i <= |ks|
      invariant PositionTargets(ks[i..], positions, targets) == PositionTargets(ks, positions, EmptyDict())
    {
      assert ks[i..][1..] == ks[i + 1..] && ks[i] in ks;
      var p := positions[ks[i]];
      targets := targets.Put((p.conditionId, p.tokenId), p.marketSlug);
      i := i + 1;
    }
  }

  /** ... then the market tokens that only have orders. */
  method TargetOrders(ks: seq<string>, orders: map<string, Order>, first: Targets) returns (targets: Targets)
    requires forall k :: k in ks ==> k in orders
    ensures targets == OrderTargets(ks, orders, first)
  {
    targets := first;
    var i := 0;
    while i < |ks|
      invariant 0 <= i <= |ks|
      invariant OrderTargets(ks[i..], orders, targets) == OrderTargets(ks, orders, first)
    {
      assert ks[i..][1..] == ks[i + 1..] && ks[i] in ks;
      var o := orders[ks[i]];
      if (o.conditionId, o.tokenId) !in targets.items {
        targets := targets.Put((o.conditionId, o.tokenId), o.marketSlug);
      }
      i := i + 1;
    }
  }

  class AccountStateProjector {
    const store: AccountStateStore

    constructor (store: AccountStateStore)
      ensures this.store == store
    {
      this.store := store;
    }

    method StoreSellOrder(position: Position, r: OrderResult, i: Intent, remaining: real)
      requires store.Valid() && remaining == SellResultRemaining(r, i)
      modifies store`orders
      ensures store.Valid() && store.View() == SellResultStored(old(store.View()), position, r, i)
    {
      var id := SellOrderId(r, i);
      if r.status in {Resting, PartialFill} {
        store.UpsertOrder(Order(r.conditionId, r.tokenId, Sell, StatusOf(r.status),
          OrElse(position.marketSlug, r.marketSlug), None, NonZeroOr(r.requestedSize, Some(i.size)), r.matched,
          Some(remaining), Some(id), OrElse(i.idempotencyKey, Some(id))));
      } else {
        store.RemoveOrder(id);
      }
    }

    method ApplySellResult(r: OrderResult, i: Intent, fallback: Option<Position>, now: int)
      requires store.Valid()
      modifies store`positions, store`orders
      ensures store.Valid()
      ensures store.View() == ProjectionModel.ApplySellResult(old(store.View()), r, i, fallback, now)
    {
      hide OrderKey, SellOrderId, StatusName, SellResultStored, FoundSize, Keyed, Merge, FilledShares;
      if r.status !in {FullFill, PartialFill, Resting} {
        return;
      }
      var snapshot := store.View();
      var found := snapshot.PositionOf(r.conditionId, r.tokenId);
      if found.None? {
        found := fallback;
      }
      if found.None? {
        return;
      }
      var position := found.value;
      var remaining := r.remaining;
      if r.status in {Resting, PartialFill} && remaining <= 0.0 {
        remaining := i.size - FilledShares(r);
      }
      if remaining < 0.0 {
        remaining := 0.0;
      }
      assert remaining == SellResultRemaining(r, i);
      var existing := ExistingOrderSize(snapshot, r);
      var openSell := MaxReal(position.openSell - existing, 0.0) + remaining;
      var updated := Position(position.conditionId, position.tokenId, position.shares, position.cost,
        OrElse(position.marketSlug, r.marketSlug), position.openBuy, openSell, position.pendingBuy, position.confirmed,
        OrElse(r.orderId, position.lastOrderId), OrElse(r.tradeId, position.lastTradeId), StatusName(r.status),
        Some(now), NO_AUTHORITY);
      assert updated == SellResultPosition(snapshot, position, r, i, now);
      StoreSellOrder(position, r, i, remaining);
      store.UpsertPosition(updated);
    }

    method PositionAfterSubmit(snapshot: Book, i: Intent, slug: Option<string>) returns (position: Position)
      requires Keyed(snapshot)
      ensures position == SubmittedPosition(snapshot, i, slug)
    {
      var shares := BuyShares(i);
      var found := snapshot.PositionOf(i.conditionId, i.tokenId);
      if found.None? {
        position := Position(i.conditionId, i.tokenId, 0.0, 0.0, slug, shares, if i.side.Sell? then i.size else 0.0,
          shares, 0.0, None, None, "unknown", None, NO_AUTHORITY);
      } else if i.side.Sell? {
        var open := OpenSellShares(snapshot, i.conditionId, i.tokenId);
        position := found.value.(openSell := open + i.size);
      } else {
        position := found.value.(openBuy := found.value.openBuy + shares);
        position := position.(pendingBuy := position.pendingBuy + shares);
      }
    }

    method ApplySubmittedIntent(i: Intent, slug: Option<string>, snapshot: Book)
      requires store.Valid() && Keyed(snapshot)
      modifies store`positions, store`orders
      ensures store.Valid()
      ensures store.View() == ProjectionModel.ApplySubmittedIntent(old(store.View()), snapshot, i, slug)
    {
      var position := PositionAfterSubmit(snapshot, i, slug);
      store.UpsertOrder(SubmittedOrder(i));
      store.UpsertPosition(position);
    }

    method ApplyReplaceResult(marketSlug: string, source: Order, r: OrderResult)
      requires store.Valid()
      modifies store`positions, store`orders
      ensures store.Valid()
      ensures store.View() == ProjectionModel.ApplyReplaceResult(old(store.View()), marketSlug, source, r)
    {
      store.RemoveOrder(OrderKey(source));
      if StatusOf(r.status) in {Created, Signed, Submitted, Live, Matched, PartiallyFilled} {
        store.UpsertOrder(ReplacementOrder(marketSlug, source, r));
      }
      RefreshPositionCoverage(source.conditionId, source.tokenId, OrElse(source.marketSlug, Some(marketSlug)),
        OrElse(r.orderId, Some(r.traceId)), r.tradeId, StatusName(r.status), r.ackAt);
    }

    method RefreshPositionCoverage(c: string, t: string, slug: Option<string>, lastOrder: Option<string>,
                                   lastTrade: Option<string>, status: string, at: Option<int>)
      requires store.Valid()
      modifies store`positions
      ensures store.Valid()
      ensures store.View() == RefreshCoverage(old(store.View()), c, t, slug, lastOrder, lastTrade, status, at)
    {
      var snapshot := store.View();
      var found := snapshot.PositionOf(c, t);
      var buys := OpenBuyShares(snapshot, c, t);
      var sells := OpenSellShares(snapshot, c, t);
      if found.None? && buys <= 0.0 && sells <= 0.0 {
        return;
      }
      var p := found.GetOr(Position(c, t, 0.0, 0.0, slug, 0.0, 0.0, 0.0, 0.0, None, None, "unknown", None, NO_AUTHORITY));
      store.UpsertPosition(Position(p.conditionId, p.tokenId, p.shares, p.cost, OrElse(p.marketSlug, slug),
        buys, sells, buys, p.confirmed, lastOrder, lastTrade, status, at, NO_AUTHORITY));
    }
  }

  class ReconcileActionApplier {
    const store: AccountStateStore

    constructor (store: AccountStateStore)
      ensures this.store == store
    {
      this.store := store;
    }

    method ApplyResume(c: string)
      requires store.Valid()
      modifies store`pauses
      ensures store.Valid() && store.pauses == old(store.pauses).Drop(c)
    {
      store.ResumeMarket(c);
    }

    /** The exchange has confirmed the cancel; the position comes from the snapshot the plan was given. */
    method ApplyCancel(id: string, c: string, t: string, side: Option<Side>, target: Option<real>, snapshot: Book)
      requires store.Valid()
      modifies store`positions, store`orders
      ensures store.Valid()
      ensures store.View() == ProjectionModel.ApplyCancel(old(store.View()), snapshot.PositionOf(c, t), id, side, target)
    {
      store.RemoveOrder(id);
      var found := snapshot.PositionOf(c, t);
      if found.Some? {
        var position := found.value;
        if side == Some(Buy) {
          position := position.(openBuy := 0.0);
          position := position.(pendingBuy := 0.0);
        } else {
          position := position.(openSell := MaxReal(position.openSell - target.GetOr(0.0), 0.0));
        }
        assert position == CancelledPosition(found.value, side, target);
        store.UpsertPosition(position);
      }
    }

    method ApplyReplace(x: Replacement, r: Option<OrderResult>, older: Option<Order>, fallback: Option<Position>)
      requires store.Valid()
      modifies store`positions, store`orders
      ensures store.Valid()
      ensures store.View() == ApplyReconcileReplace(old(store.View()), x, r, older, fallback)
    {
      if r.Some? && r.value.status in {ResultRejected, ResultFailed, UnknownTimeout} {
        return;
      }
      var snapshot := store.View();
      var existing := FindOpenOrder(snapshot, x.conditionId, x.tokenId, x.orderId);
      if existing.None? {
        existing := older;
      }
      store.RemoveOrder(x.orderId);
      var side := NewSide(x, r, existing);
      if NewStatus(r) in {Submitted, Live, PartiallyFilled, Created, Signed} {
        store.UpsertOrder(NewOrder(x, r, side));
      } else {
        store.RemoveOrder(NewOrderId(x, r));
      }
      assert store.View() == ReconcileStored(snapshot, x, r, side);
      var found := snapshot.PositionOf(x.conditionId, x.tokenId);
      if found.None? {
        found := fallback;
      }
      if found.None? {
        return;
      }
      store.UpsertPosition(ReplacedPosition(found.value, side, existing, NewRemaining(x, r)));
    }
  }

  class AuthorityRefresher {
    const store: AccountStateStore

    constructor (store: AccountStateStore)
      ensures this.store == store
    {
      this.store := store;
    }

    method CoverageTargets() returns (targets: Targets)
      requires store.Valid()
      ensures targets == TargetsOf(store.View())
    {
      var b := store.View();
      targets := TargetPositions(b.positions.order, b.positions.items);
      targets := TargetOrders(b.orders.order, b.orders.items, targets);
    }

    method RefreshTarget(projector: AccountStateProjector, k: PositionKey, target: Option<string>)
      requires store.Valid() && projector.store == store
      modifies store`positions
      ensures store.Valid() && store.View() == RefreshOne(old(store.View()), k, target)
    {
      var (c, t) := k;
      var p := store.View().PositionOf(c, t);
      var slug := if p.Some? && Truthy(p.value.marketSlug) then p.value.marketSlug else target;
      projector.RefreshPositionCoverage(c, t, slug,
        if p.None? then None else p.value.lastOrderId,
        if p.None? then None else p.value.lastTradeId,
        if p.None? then "authority_refresh" else p.value.confirmationStatus,
        if p.None? then None else p.value.updatedAt);
    }

    /** Rebuild the coverage of every position and of every market token with orders. */
    method RefreshAuthoritativePositionCoverage()
      requires store.Valid()
      modifies store`positions
      ensures store.Valid()
      ensures TargetsOf(old(store.View())).Valid() && store.View() == RebuildAll(old(store.View()))
    {
      hide OrderKey, Keyed, RefreshOne;
      var projector := new AccountStateProjector(store);
      ghost var before := store.View();
      TargetsCover(before);
      var targets := CoverageTargets();
      var ks := targets.order;
      var i := 0;
      while i < |ks|
        invariant 0 <= i <= |ks| && store.Valid()
        invariant forall k :: k in ks[i..] ==> k in targets.items
        invariant RefreshEach(store.View(), ks[i..], targets.items) == RebuildAll(before)
      {
        assert ks[i..][0] == ks[i] && ks[i..][1..] == ks[i + 1..];
        RefreshTarget(projector, ks[i], targets.items[ks[i]]);
        i := i + 1;
      }
    }
  }
}

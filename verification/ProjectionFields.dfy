/** What the projections store and write, told from the fields of the result, the intent and the orders: filled and
    remaining shares make up the size, and the figures move by what the outcome says. */
module ProjectionFields {
  import opened Prelude
  import opened AccountModel
  import opened ProjectionModel

  // ---- statuses ----

  /** An order is open until it is known to have ended without resting. */
  lemma OpenExactly(o: Order)
    ensures o.Open() <==> o.status != NoFill && o.status != Cancelled && o.status != OrderStatus.Rejected && o.status != Failed
  {
    match o.status
    case Created =>
    case Signed =>
    case Submitted =>
    case CancelRequested =>
    case Matched =>
    case PartiallyFilled =>
    case NoFill =>
    case Live =>
    case Cancelled =>
    case Rejected =>
    case Failed =>
  }

  /** Each outcome has its own order status and its own text, but that a timeout is stored as a failure; the ones that
      leave an open order are fills and rests. */
  lemma StatusesMatch(s: ResultStatus, t: ResultStatus)
    ensures StatusOf(s) == StatusOf(t) <==> s == t || {s, t} == {ResultFailed, UnknownTimeout}
    ensures StatusName(s) == StatusName(t) <==> s == t
    ensures StatusOf(s) in {Matched, PartiallyFilled, Live} <==> s in {FullFill, PartialFill, Resting}
    ensures StatusOf(FullFill) == Matched && StatusOf(PartialFill) == PartiallyFilled && StatusOf(Resting) == Live
    ensures StatusOf(ResultCancelled) == Cancelled && StatusOf(ResultRejected) == OrderStatus.Rejected && StatusOf(NotFilled) == NoFill
  {
    if s != t {
      assert StatusName(FullFill)[0] == 'f' && StatusName(FullFill)[1] == 'u' && StatusName(PartialFill)[0] == 'p'
          && StatusName(NotFilled)[0] == 'n' && StatusName(Resting)[0] == 'l' && StatusName(ResultRejected)[0] == 'r'
          && StatusName(ResultFailed)[1] == 'a' && StatusName(ResultCancelled)[0] == 'c' && StatusName(UnknownTimeout)[0] == 'u';
    }
  }

  // ---- a sell result ----

  /** What the store keeps of a sell that rests or was partly filled: an open sell under the result's id - or the
      intent's, where it has none - with what is left as reported; or, where nothing is reported left, with what the
      fill leaves of the size asked for. */
  lemma RestingSellInFields(p: Position, r: OrderResult, i: Intent)
    requires r.status in {Resting, PartialFill}
    ensures var o := SellResultOrder(p, r, i);
      && o.In(r.conditionId, r.tokenId) && o.side == Sell && o.Open()
      && o.status == (if r.status == Resting then Live else PartiallyFilled)
      && o.filled == r.matched && o.size == (if r.requestedSize.GetOr(0.0) != 0.0 then r.requestedSize else Some(i.size))
      && o.orderId == Some(OrderKey(o))
      && (Truthy(r.orderId) ==> o.orderId == r.orderId)
      && (!Truthy(r.orderId) && Truthy(i.idempotencyKey) ==> o.orderId == i.idempotencyKey)
      && (Truthy(i.idempotencyKey) ==> o.idempotencyKey == i.idempotencyKey)
      && (Truthy(p.marketSlug) ==> o.marketSlug == p.marketSlug) && (!Truthy(p.marketSlug) ==> o.marketSlug == r.marketSlug)
  {
    assert |r.traceId + ":" + r.conditionId + ":" + r.tokenId + ":sell"| >= 5;
  }

  /** Filled and remaining make up the size: what is left of the size asked for is what the match, else the request less
      the reported remainder, else the money over the price has not taken. */
  lemma SellRemainderInFields(r: OrderResult, i: Intent)
    ensures var left := SellResultRemaining(r, i);
      && left >= 0.0
      && (r.remaining > 0.0 ==> left == r.remaining)
      && (r.status !in {Resting, PartialFill} && r.remaining <= 0.0 ==> left == 0.0)
      && (r.status in {Resting, PartialFill} && r.remaining <= 0.0 ==>
            && (r.matched > 0.0 ==> left + r.matched == MaxReal(i.size, r.matched))
            && (r.matched <= 0.0 && r.requestedSize.Some? ==>
                  left + r.requestedSize.value - r.remaining == MaxReal(i.size, r.requestedSize.value - r.remaining))
            && (r.matched <= 0.0 && r.requestedSize.None? && r.notional > 0.0 && r.price.GetOr(0.0) > 0.0 ==>
                  left + r.notional / r.price.value == MaxReal(i.size, r.notional / r.price.value))
            && (r.matched <= 0.0 && r.requestedSize.None? && (r.notional <= 0.0 || r.price.GetOr(0.0) <= 0.0) ==>
                  left == MaxReal(i.size, 0.0)))
  {}

  /** Only the order under the result's key is touched. */
  ghost predicate OnlyOrder(b: Book, n: Book, k: string) {
    forall j :: j != k ==> n.orders.Get(j) == b.orders.Get(j)
  }

  ghost predicate OnlyPosition(b: Book, n: Book, c: string, t: string) {
    forall d, u :: (d, u) != (c, t) ==> n.PositionOf(d, u) == b.PositionOf(d, u)
  }

  predicate SameButSell(p: Position, q: Position) {
    q.shares == p.shares && q.cost == p.cost && q.confirmed == p.confirmed && q.openBuy == p.openBuy && q.pendingBuy == p.pendingBuy
  }

  lemma UpsertedPosition(b: Book, p: Position)
    ensures var n := b.UpsertPosition(p);
      && n.orders == b.orders && OnlyPosition(b, n, p.conditionId, p.tokenId)
      && n.PositionOf(p.conditionId, p.tokenId).Some?
      && var q := n.PositionOf(p.conditionId, p.tokenId).value;
         && q.shares == p.shares && q.cost == p.cost && q.confirmed == p.confirmed
         && q.openBuy == p.openBuy && q.openSell == p.openSell && q.pendingBuy == p.pendingBuy
         && q.lastOrderId == p.lastOrderId && q.lastTradeId == p.lastTradeId
         && q.confirmationStatus == p.confirmationStatus && q.updatedAt == p.updatedAt
  {}

  lemma StoredOrders(b: Book, o: Order, k: string)
    ensures b.UpsertOrder(o).orders.Get(OrderKey(o)) == Some(o) && OnlyOrder(b, b.UpsertOrder(o), OrderKey(o))
    ensures b.RemoveOrder(k).orders.Get(k) == None && OnlyOrder(b, b.RemoveOrder(k), k)
    ensures b.UpsertOrder(o).positions == b.positions == b.RemoveOrder(k).positions
  {
    hide OrderKey;
  }

  /** A sell result moves one order and one position: the order rests or is gone, what is held stays, the open-sell
      figure gives up the size found and takes what is left, and the ids the result brings are noted. */
  lemma SellResultInFields(b: Book, r: OrderResult, i: Intent, p: Position, fallback: Option<Position>, now: int)
    requires r.status in {FullFill, PartialFill, Resting} && FoundPosition(b, r.conditionId, r.tokenId, fallback) == Some(p)
    requires p.conditionId == r.conditionId && p.tokenId == r.tokenId
    ensures var n, id := ApplySellResult(b, r, i, fallback, now), SellOrderId(r, i);
      && OnlyOrder(b, n, id) && OnlyPosition(b, n, r.conditionId, r.tokenId)
      && n.orders.Get(id) == (if r.status == FullFill then None else Some(SellResultOrder(p, r, i)))
      && n.PositionOf(r.conditionId, r.tokenId).Some?
      && var q := n.PositionOf(r.conditionId, r.tokenId).value;
         && SameButSell(p, q)
         && q.openSell == MaxReal(p.openSell - ExistingSize(b, r), 0.0) + SellResultRemaining(r, i)
         && q.lastOrderId == (if Truthy(r.orderId) then r.orderId else p.lastOrderId)
         && q.lastTradeId == (if Truthy(r.tradeId) then r.tradeId else p.lastTradeId)
         && q.confirmationStatus == StatusName(r.status) && q.updatedAt == Some(now)
  {
    hide OrderKey, ExistingSize, SellResultRemaining, StatusName;
    var id, o, q := SellOrderId(r, i), SellResultOrder(p, r, i), SellResultPosition(b, p, r, i, now);
    SellKey(p, r, i);
    StoredOrders(b, o, id);
    hide SellOrderId;
    UpsertedPosition(SellResultStored(b, p, r, i), q);
  }

  lemma SellKey(p: Position, r: OrderResult, i: Intent)
    ensures OrderKey(SellResultOrder(p, r, i)) == SellOrderId(r, i)
  {
    assert |r.traceId + ":" + r.conditionId + ":" + r.tokenId + ":sell"| >= 5;
  }

  /** Other outcomes, and results for which no position is known, leave the account as it was. */
  lemma OtherOutcomesChangeNothing(b: Book, r: OrderResult, i: Intent, fallback: Option<Position>, now: int)
    requires r.status in {NotFilled, ResultRejected, ResultFailed, ResultCancelled, UnknownTimeout}
             || (b.PositionOf(r.conditionId, r.tokenId).None? && fallback.None?)
    ensures ApplySellResult(b, r, i, fallback, now) == b
  {}

  // ---- the order a result speaks of ----

  /** A result without an order id is matched by its intent's key: if just one order of the market token carries that
      key and none an id-less record, its size is the one found. */
  lemma {:induction false} FoundByKey(ks: seq<string>, orders: map<string, Order>, r: OrderResult, k: string)
    requires r.orderId == None && r.hasIntent && k in ks && k in orders
    requires orders[k].In(r.conditionId, r.tokenId) && orders[k].idempotencyKey == r.intentKey
    requires forall j :: j in ks && j in orders && orders[j].In(r.conditionId, r.tokenId) && j != k ==>
               orders[j].orderId.Some? && orders[j].idempotencyKey != r.intentKey
    ensures var o := orders[k];
      FoundSize(ks, orders, r) ==
        if o.remaining.GetOr(0.0) != 0.0 then o.remaining.value else if o.size.GetOr(0.0) != 0.0 then o.size.value else 0.0
  {
    if ks[0] != k {
      FoundByKey(ks[1..], orders, r, k);
    }
  }

  // ---- a submit ----

  /** A submit stores an open order of what the intent asks: shares to sell, or money to spend. */
  lemma SubmittedOrderInFields(b: Book, seen: Book, i: Intent, slug: Option<string>)
    ensures var n, o := ApplySubmittedIntent(b, seen, i, slug), SubmittedOrder(i);
      && n.orders.Get(OrderKey(o)) == Some(o) && OnlyOrder(b, n, OrderKey(o))
      && o.In(i.conditionId, i.tokenId) && o.side == i.side && o.status == Submitted && o.Open() && o.filled == 0.0
      && (i.side == Sell ==> o.size == o.remaining == Some(i.size) && o.amountUsdc == None)
      && (i.side == Buy ==> o.size == o.remaining == None && o.amountUsdc == Some(i.amountUsdc))
      && o.orderId == Some(OrderKey(o)) && (Truthy(i.idempotencyKey) ==> o.orderId == i.idempotencyKey)
  {
    assert |i.traceId + ":" + i.conditionId + ":" + i.tokenId + ":" + (if i.side.Buy? then "buy" else "sell")| >= 3;
    var o, p := SubmittedOrder(i), SubmittedPosition(seen, i, slug);
    StoredOrders(b, o, "");
    hide SubmittedOrder, SubmittedPosition, OrderKey, IntentOrderId;
    UpsertedPosition(b.UpsertOrder(o), p);
  }

  function Figures(p: Option<Position>): (real, real, real) {
    if p.None? then (0.0, 0.0, 0.0) else (p.value.openBuy, p.value.pendingBuy, p.value.openSell)
  }

  /** A buy adds the shares its money is worth at its price to the open-buy and the pending figure the caller saw, and
      nothing to the open sells; a sell leaves the buy figures; neither touches what is held. */
  lemma SubmittedFiguresInFields(b: Book, seen: Book, i: Intent, slug: Option<string>)
    requires Keyed(seen)
    ensures var n, before := ApplySubmittedIntent(b, seen, i, slug), seen.PositionOf(i.conditionId, i.tokenId);
      && OnlyPosition(b, n, i.conditionId, i.tokenId) && n.PositionOf(i.conditionId, i.tokenId).Some?
      && var q, (buy, pending, sell) := n.PositionOf(i.conditionId, i.tokenId).value, Figures(before);
         && q.shares == (if before.Some? then before.value.shares else 0.0)
         && q.cost == (if before.Some? then before.value.cost else 0.0)
         && (i.side == Buy ==>
               && q.openBuy - buy == q.pendingBuy - pending && q.openSell == sell
               && (i.price > 0.0 ==> (q.openBuy - buy) * i.price == i.amountUsdc)
               && (i.price <= 0.0 ==> q.openBuy == buy))
         && (i.side == Sell ==> q.openBuy == buy && q.pendingBuy == pending)
  {
    hide OrderKey, SumOver, SubmittedOrder, SubmittedPosition, BuyShares, Merge, Figures;
    var p, o := SubmittedPosition(seen, i, slug), SubmittedOrder(i);
    UpsertedPosition(b.UpsertOrder(o), p);
    StoredOrders(b, o, "");
    SharesForMoney(i);
    PositionToSubmit(seen, i, slug);
  }

  lemma PositionToSubmit(seen: Book, i: Intent, slug: Option<string>)
    requires Keyed(seen)
    ensures var p, before := SubmittedPosition(seen, i, slug), seen.PositionOf(i.conditionId, i.tokenId);
      var (buy, pending, sell) := Figures(before);
      && p.conditionId == i.conditionId && p.tokenId == i.tokenId
      && p.shares == (if before.Some? then before.value.shares else 0.0)
      && p.cost == (if before.Some? then before.value.cost else 0.0)
      && (i.side == Buy ==> p.openBuy - buy == p.pendingBuy - pending == BuyShares(i) && p.openSell == sell)
      && (i.side == Sell ==> p.openBuy == buy && p.pendingBuy == pending)
  {
    hide OrderKey, SumOver;
  }

  lemma SharesForMoney(i: Intent)
    ensures i.side == Buy && i.price > 0.0 ==> BuyShares(i) * i.price == i.amountUsdc
    ensures i.side == Sell || i.price <= 0.0 ==> BuyShares(i) == 0.0
  {}

  // ---- a confirmed cancel ----

  /** A confirmed cancel removes the order; of the position its plan saw a cancelled buy clears both buy figures, any
      other cancel takes the size away from the open sells, and nothing else moves. */
  lemma CancelInFields(b: Book, held: Option<Position>, id: string, side: Option<Side>, target: Option<real>)
    ensures var n := ApplyCancel(b, held, id, side, target);
      && n.orders.Get(id) == None && OnlyOrder(b, n, id)
      && (held.None? ==> n.positions == b.positions)
      && (held.Some? ==>
            && OnlyPosition(b, n, held.value.conditionId, held.value.tokenId)
            && n.PositionOf(held.value.conditionId, held.value.tokenId).Some?
            && var p, q := held.value, n.PositionOf(held.value.conditionId, held.value.tokenId).value;
               && q.shares == p.shares && q.cost == p.cost && q.confirmed == p.confirmed
               && (side == Some(Buy) ==> q.openBuy == q.pendingBuy == 0.0 && q.openSell == p.openSell)
               && (side != Some(Buy) ==>
                     && q.openBuy == p.openBuy && q.pendingBuy == p.pendingBuy
                     && q.openSell == (if p.openSell >= target.GetOr(0.0) then p.openSell - target.GetOr(0.0) else 0.0)))
  {
    StoredOrders(b, Order("", "", Buy, Live, None, None, None, 0.0, None, None, None), id);
    if held.Some? {
      UpsertedPosition(b.RemoveOrder(id), CancelledPosition(held.value, side, target));
    }
  }

  // ---- a replace result ----

  /** The order that takes the place of a replaced one: of the side the result names, else the old one's; of the size it
      asked for, else what was open of the old one; filled and remaining make up that size where nothing is reported
      left of an order that rests. */
  lemma ReplacementInFields(slug: string, source: Order, r: OrderResult)
    ensures ReplacementRests(r) <==> r.status in {FullFill, PartialFill, Resting}
    ensures var o := ReplacementOrder(slug, source, r);
      && o.In(r.conditionId, r.tokenId) && o.side == (if r.side.Some? then r.side.value else source.side)
      && o.status == StatusOf(r.status) && o.filled == r.matched
      && o.remaining.Some? && o.remaining.value >= 0.0
      && (r.requestedSize.GetOr(0.0) != 0.0 ==> o.size == r.requestedSize)
      && (r.requestedSize.GetOr(0.0) == 0.0 && OpenShares(source).GetOr(0.0) > 0.0 ==> o.size == OpenShares(source))
      && (r.requestedSize.GetOr(0.0) == 0.0 && OpenShares(source).GetOr(0.0) == 0.0 ==> o.size == source.size)
      && (r.remaining > 0.0 ==> o.remaining.value == r.remaining)
      && (r.remaining <= 0.0 && (r.status !in {Resting, PartialFill} || o.size.None?) ==> o.remaining.value == 0.0)
      && (r.remaining <= 0.0 && r.status in {Resting, PartialFill} && o.size.Some? ==>
            o.remaining.value + o.filled == MaxReal(o.size.value, o.filled))
      && (r.requestedAmount.Some? ==> o.amountUsdc == r.requestedAmount)
      && (r.requestedAmount.None? ==> o.amountUsdc == (if o.side == Buy then source.amountUsdc else None))
      && (Truthy(r.orderId) ==> o.orderId == r.orderId) && (!Truthy(r.orderId) ==> o.orderId == Some(r.traceId))
  {}

  /** The old order goes, the new one is stored exactly when it fills or rests, no other order moves, and the position -
      rebuilt - notes the result. */
  lemma ReplaceResultInFields(b: Book, slug: string, source: Order, r: OrderResult, k: string)
    requires Keyed(b)
    ensures var n, o := ApplyReplaceResult(b, slug, source, r), ReplacementOrder(slug, source, r);
      && n.orders.Get(k) ==
           (if r.status in {FullFill, PartialFill, Resting} && k == OrderKey(o) then Some(o)
            else if k == OrderKey(source) then None else b.orders.Get(k))
      && (n.PositionOf(source.conditionId, source.tokenId).Some? ==>
            var q := n.PositionOf(source.conditionId, source.tokenId).value;
            && q.lastOrderId == (if Truthy(r.orderId) then r.orderId else Some(r.traceId)) && q.lastTradeId == r.tradeId
            && q.confirmationStatus == StatusName(r.status) && q.updatedAt == r.ackAt)
  {
    hide OrderKey, SumOver, ReplacementOrder, StatusName, StatusOf;
    var o, removed := ReplacementOrder(slug, source, r), b.RemoveOrder(OrderKey(source));
    ReplacementInFields(slug, source, r);
    StoredOrders(b, o, OrderKey(source));
    StoredOrders(removed, o, OrderKey(source));
    RefreshNotes(ReplaceStored(b, slug, source, r), source.conditionId, source.tokenId,
                 OrElse(source.marketSlug, Some(slug)), OrElse(r.orderId, Some(r.traceId)), r.tradeId, StatusName(r.status), r.ackAt);
  }

  lemma RefreshNotes(b: Book, c: string, t: string, slug: Option<string>, lastOrder: Option<string>,
                     lastTrade: Option<string>, status: string, at: Option<int>)
    requires Keyed(b)
    ensures var n := RefreshCoverage(b, c, t, slug, lastOrder, lastTrade, status, at);
      && n.orders == b.orders
      && (n.PositionOf(c, t).Some? ==>
            var q := n.PositionOf(c, t).value;
            q.lastOrderId == lastOrder && q.lastTradeId == lastTrade && q.confirmationStatus == status && q.updatedAt == at)
  {
    hide SumOver, OrderKey, Total;
  }

  // ---- a reconcile replacement ----

  /** The order a reconcile replacement leaves: refused answers leave none, an answer that filled it whole or ended it
      leaves none either; else it is of the plan's size, with what is left as reported or as the match leaves it, or
      whole where no answer came. */
  lemma ReconcileOrderInFields(x: Replacement, r: Option<OrderResult>, side: Side)
    ensures ReplaceAccepted(r) <==> r.None? || r.value.status in {FullFill, PartialFill, NotFilled, Resting, ResultCancelled}
    ensures NewRests(r) <==> r.None? || r.value.status in {PartialFill, Resting}
    ensures var o := NewOrder(x, r, side);
      && o.In(x.conditionId, x.tokenId) && o.side == side && o.size == Some(x.size)
      && (NewRests(r) ==> o.Open()) && (r.None? ==> o.status == Submitted && o.filled == 0.0)
      && (r.Some? ==> o.status == StatusOf(r.value.status) && o.filled == r.value.matched)
      && o.remaining.Some? && o.remaining.value >= 0.0
      && (r.None? ==> o.remaining.value == MaxReal(x.size, 0.0))
      && (r.Some? && r.value.remaining > 0.0 ==> o.remaining.value == r.value.remaining)
      && (r.Some? && r.value.remaining <= 0.0 ==>
            if r.value.status in {Resting, PartialFill} then o.remaining.value + o.filled == MaxReal(x.size, o.filled)
            else o.remaining.value == 0.0)
      && (r.Some? && Truthy(r.value.orderId) ==> o.orderId == r.value.orderId)
      && (r.None? || !Truthy(r.value.orderId) ==> o.orderId == Some(x.orderId))
  {}

  /** What was open of the replaced order: its remainder, else its size; for a sell without either the money it names. */
  function WasOpen(replaced: Option<Order>, side: Side): real {
    if replaced.None? then 0.0
    else
      var o := replaced.value;
      if o.remaining.Some? then MaxReal(o.remaining.value, 0.0)
      else if o.size.Some? then MaxReal(o.size.value, 0.0)
      else if side == Sell then MaxReal(o.amountUsdc.GetOr(0.0), 0.0) else 0.0
  }

  /** The position's figure of the new order's side - the answer's, else the replaced order's, else sell - gives up what
      was open of the old order and takes what is left of the new; the other side's figure and what is held stay. */
  lemma ReconcileFiguresInFields(b: Book, x: Replacement, r: Option<OrderResult>, older: Option<Order>, fallback: Option<Position>,
                                 p: Position)
    requires ReplaceAccepted(r) && FoundPosition(b, x.conditionId, x.tokenId, fallback) == Some(p)
    requires p.conditionId == x.conditionId && p.tokenId == x.tokenId
    ensures var n, replaced := ApplyReconcileReplace(b, x, r, older, fallback), Replaced(b, x, older);
      var side := if r.Some? && r.value.side.Some? then r.value.side.value else if replaced.Some? then replaced.value.side else Sell;
      && OnlyPosition(b, n, x.conditionId, x.tokenId) && n.PositionOf(x.conditionId, x.tokenId).Some?
      && var q := n.PositionOf(x.conditionId, x.tokenId).value;
         && q.shares == p.shares && q.cost == p.cost && q.confirmed == p.confirmed
         && (side == Sell ==>
               && q.openSell == MaxReal(p.openSell - WasOpen(replaced, Sell), 0.0) + NewRemaining(x, r)
               && q.openBuy == p.openBuy && q.pendingBuy == p.pendingBuy)
         && (side == Buy ==>
               && q.openBuy == q.pendingBuy == MaxReal(p.openBuy - WasOpen(replaced, Buy), 0.0) + NewRemaining(x, r)
               && q.openSell == p.openSell)
  {
    hide OrderKey, NewOrder, NewRests, NewRemaining, Replaced, ReplaceAccepted;
    var replaced := Replaced(b, x, older);
    var side := NewSide(x, r, replaced);
    StoredPositions(b, x, r, side);
    hide ReconcileStored;
    UpsertedPosition(ReconcileStored(b, x, r, side), ReplacedPosition(p, side, replaced, NewRemaining(x, r)));
  }

  lemma StoredPositions(b: Book, x: Replacement, r: Option<OrderResult>, side: Side)
    ensures ReconcileStored(b, x, r, side).positions == b.positions
  {
    hide OrderKey, NewOrder, NewRests;
  }

  /** A refused replacement leaves the account as it was. */
  lemma RefusedReplacementChangesNothing(b: Book, x: Replacement, r: OrderResult, older: Option<Order>, fallback: Option<Position>)
    requires r.status in {ResultRejected, ResultFailed, UnknownTimeout}
    ensures ApplyReconcileReplace(b, x, Some(r), older, fallback) == b
  {}

  /** The stored position is the one worked from; an older one only where none is stored. */
  lemma StoredPositionFirst(b: Book, c: string, t: string, fallback: Option<Position>)
    ensures b.PositionOf(c, t).Some? ==> FoundPosition(b, c, t, fallback) == b.PositionOf(c, t)
    ensures b.PositionOf(c, t).None? ==> FoundPosition(b, c, t, fallback) == fallback
  {}
}

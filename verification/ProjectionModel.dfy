/** How order outcomes are projected onto the account: a position's open-sell figure is a cache of
    the sum over its open sell orders, kept up to date order by order or rebuilt from the orders. */
module ProjectionModel {
  import opened Prelude
  import opened AccountModel

  // ---- sums over open orders ----

  /** `max(remaining, 0)`, else `max(size, 0)`, else nothing known. */
  function OpenShares(o: Order): Option<real> {
    if o.remaining.Some? then Some(MaxReal(o.remaining.value, 0.0))
    else if o.size.Some? then Some(MaxReal(o.size.value, 0.0))
    else None
  }

  /** Falls back to the USDC amount of an order that carries no share size. */
  function OpenSize(o: Order): real {
    if OpenShares(o).Some? then OpenShares(o).value
    else if o.amountUsdc.Some? then MaxReal(o.amountUsdc.value, 0.0)
    else 0.0
  }

  /** What one order adds to the open figure of a side of a market token. */
  function Weight(o: Order, c: string, t: string, side: Side): real {
    if !(o.In(c, t) && o.side == side && o.Open()) then 0.0
    else if side == Buy then OpenShares(o).GetOr(0.0)
    else if o.remaining.Some? then o.remaining.value
    else o.size.GetOr(0.0)
  }

  function SumOver(ks: seq<string>, orders: map<string, Order>, c: string, t: string, side: Side): real {
    if ks == [] then 0.0
    else (if ks[0] in orders then Weight(orders[ks[0]], c, t, side) else 0.0) + SumOver(ks[1..], orders, c, t, side)
  }

  /** The sum over all open orders of a side of a market token. */
  function Total(b: Book, c: string, t: string, side: Side): real {
    SumOver(b.orders.order, b.orders.items, c, t, side)
  }

  lemma SumStep(ks: seq<string>, orders: map<string, Order>, i: nat, c: string, t: string, side: Side)
    requires i < |ks| && ks[i] in orders
    ensures SumOver(ks[i..], orders, c, t, side) == Weight(orders[ks[i]], c, t, side) + SumOver(ks[i + 1..], orders, c, t, side)
  {
    assert ks[i..][1..] == ks[i + 1..];
  }

  /** The snapshot's accumulator loop over the open sell orders. */
  method OpenSellShares(b: Book, c: string, t: string) returns (total: real)
    requires forall k :: k in b.orders.order ==> k in b.orders.items
    ensures total == Total(b, c, t, Sell)
  {
    total := 0.0;
    var i := 0;
    var ks, orders := b.orders.order, b.orders.items;
    while i < |ks|
      invariant 0 <= i <= |ks|
      invariant total + SumOver(ks[i..], orders, c, t, Sell) == SumOver(ks, orders, c, t, Sell)
    {
      var o := orders[ks[i]];
      SumStep(ks, orders, i, c, t, Sell);
      if o.In(c, t) && o.side == Sell && o.Open() {
        if o.remaining.Some? {
          total := total + o.remaining.value;
        } else if o.size.Some? {
          total := total + o.size.value;
        }
      }
      i := i + 1;
    }
  }

  function WeightAt(b: Book, k: string, c: string, t: string, side: Side): real {
    if k in b.orders.items then Weight(b.orders.items[k], c, t, side) else 0.0
  }

  lemma {:induction false} SumFrame(ks: seq<string>, a: map<string, Order>, b: map<string, Order>, c: string, t: string, side: Side)
    requires forall k :: k in ks ==> (k in a <==> k in b) && (k in a ==> a[k] == b[k])
    ensures SumOver(ks, a, c, t, side) == SumOver(ks, b, c, t, side)
  {
    if ks != [] {
      SumFrame(ks[1..], a, b, c, t, side);
    }
  }

  lemma {:induction false} SumAppend(ks: seq<string>, k: string, a: map<string, Order>, c: string, t: string, side: Side)
    ensures SumOver(ks + [k], a, c, t, side) == SumOver(ks, a, c, t, side) + SumOver([k], a, c, t, side)
  {
    if ks == [] {
      assert ks + [k] == [k];
    } else {
      assert (ks + [k])[1..] == ks[1..] + [k];
      SumAppend(ks[1..], k, a, c, t, side);
    }
  }

  lemma {:induction false} SumReplace(ks: seq<string>, a: map<string, Order>, k: string, o: Order, c: string, t: string, side: Side)
    requires NoDup(ks) && k in ks && k in a
    ensures SumOver(ks, a[k := o], c, t, side) == SumOver(ks, a, c, t, side) - Weight(a[k], c, t, side) + Weight(o, c, t, side)
  {
    if ks[0] == k {
      SumFrame(ks[1..], a, a[k := o], c, t, side);
    } else {
      SumReplace(ks[1..], a, k, o, c, t, side);
    }
  }

  lemma {:induction false} SumWithout(ks: seq<string>, a: map<string, Order>, k: string, c: string, t: string, side: Side)
    requires NoDup(ks)
    ensures SumOver(Without(ks, k), a - {k}, c, t, side) ==
            SumOver(ks, a, c, t, side) - (if k in ks && k in a then Weight(a[k], c, t, side) else 0.0)
  {
    if ks != [] {
      SumWithout(ks[1..], a, k, c, t, side);
    }
  }

  lemma UpsertOrderTotal(b: Book, o: Order, c: string, t: string, side: Side)
    requires Keyed(b)
    ensures Total(b.UpsertOrder(o), c, t, side) == Total(b, c, t, side) - WeightAt(b, OrderKey(o), c, t, side) + Weight(o, c, t, side)
  {
    var k := OrderKey(o);
    if k in b.orders.items {
      SumReplace(b.orders.order, b.orders.items, k, o, c, t, side);
    } else {
      SumAppend(b.orders.order, k, b.orders.items[k := o], c, t, side);
      SumFrame(b.orders.order, b.orders.items, b.orders.items[k := o], c, t, side);
    }
  }

  lemma RemoveOrderTotal(b: Book, k: string, c: string, t: string, side: Side)
    requires Keyed(b)
    ensures Total(b.RemoveOrder(k), c, t, side) == Total(b, c, t, side) - WeightAt(b, k, c, t, side)
  {
    SumWithout(b.orders.order, b.orders.items, k, c, t, side);
  }

  // ---- the sums in terms of the orders' own fields ----

  /** The same order after something happened to it: its market token, side and key stay. */
  ghost predicate Amends(b: Book, id: string, next: Order) {
    && id in b.orders.items && OrderKey(b.orders.items[id]) == id == OrderKey(next)
    && next.In(b.orders.items[id].conditionId, b.orders.items[id].tokenId) && next.side == b.orders.items[id].side
  }

  lemma AmendedTotal(b: Book, id: string, next: Order, c: string, t: string, side: Side)
    requires Keyed(b) && Amends(b, id, next)
    ensures Total(b.UpsertOrder(next), c, t, side) ==
            Total(b, c, t, side) - Weight(b.orders.items[id], c, t, side) + Weight(next, c, t, side)
  {
    hide Weight, OrderKey;
    UpsertOrderTotal(b, next, c, t, side);
  }

  /** A fill of x of what remains of an open order lowers its own sum by exactly x, whatever its size says, and no
      other sum. */
  lemma FillLowersTotal(b: Book, id: string, next: Order, x: real, c: string, t: string, side: Side)
    requires Keyed(b) && Amends(b, id, next)
    requires var o := b.orders.items[id];
      o.Open() && next.Open() && o.remaining.Some? && next.remaining == Some(o.remaining.value - x) && 0.0 <= x <= o.remaining.value
    ensures var o := b.orders.items[id];
      Total(b.UpsertOrder(next), c, t, side) == Total(b, c, t, side) - (if o.In(c, t) && o.side == side then x else 0.0)
  {
    hide SumOver, OrderKey;
    AmendedTotal(b, id, next, c, t, side);
  }

  /** An order without a known remainder counts as if its size were still to fill, and without either as nothing. */
  lemma UnknownRemainderCountsSize(b: Book, id: string, next: Order, c: string, t: string, side: Side)
    requires Keyed(b) && Amends(b, id, next)
    requires var o := b.orders.items[id];
      o.Open() && next.Open() && o.remaining == None && next.remaining == Some(o.size.GetOr(0.0))
    ensures Total(b.UpsertOrder(next), c, t, side) == Total(b, c, t, side)
  {
    hide SumOver, OrderKey;
    AmendedTotal(b, id, next, c, t, side);
  }

  /** An order that is no longer open, of which nothing remains, or that is of another side or market counts nothing:
      taking it away changes no such sum. A buy filled beyond its size counts nothing either. */
  lemma SpentCountsNothing(b: Book, id: string, c: string, t: string, side: Side)
    requires Keyed(b) && id in b.orders.items
    requires var o := b.orders.items[id];
      !o.Open() || !o.In(c, t) || o.side != side || o.remaining == Some(0.0)
      || (side == Buy && o.remaining.Some? && o.remaining.value <= 0.0)
    ensures Total(b.RemoveOrder(id), c, t, side) == Total(b, c, t, side)
  {
    hide SumOver, OrderKey;
    RemoveOrderTotal(b, id, c, t, side);
  }

  // ---- the projections ----

  datatype ResultStatus =
    | FullFill | PartialFill | NotFilled | Resting | ResultRejected | ResultFailed | ResultCancelled | UnknownTimeout

  datatype OrderResult = OrderResult(
    traceId: string,
    conditionId: string,
    tokenId: string,
    status: ResultStatus,
    intentKey: Option<string>,      // the intent's idempotency key, when the result carries its intent
    hasIntent: bool,
    marketSlug: Option<string>,
    orderId: Option<string>,
    tradeId: Option<string>,
    side: Option<Side>,
    price: Option<real>,
    requestedAmount: Option<real>,
    requestedSize: Option<real>,
    matched: real,
    remaining: real,
    notional: real,
    ackAt: Option<int>
  )

  datatype Intent = Intent(
    traceId: string,
    conditionId: string,
    tokenId: string,
    side: Side,
    price: real,
    size: real,        // shares of a sell
    amountUsdc: real,  // money of a buy
    marketSlug: Option<string>,
    idempotencyKey: Option<string>
  )

  function StatusOf(s: ResultStatus): OrderStatus {
    match s
    case FullFill => Matched
    case PartialFill => PartiallyFilled
    case NotFilled => NoFill
    case Resting => Live
    case ResultRejected => Rejected
    case ResultFailed => Failed
    case ResultCancelled => Cancelled
    case UnknownTimeout => Failed
  }

  function StatusName(s: ResultStatus): string {
    match s
    case FullFill => "full_fill"
    case PartialFill => "partial_fill"
    case NotFilled => "no_fill"
    case Resting => "live"
    case ResultRejected => "rejected"
    case ResultFailed => "failed"
    case ResultCancelled => "cancelled"
    case UnknownTimeout => "unknown_timeout"
  }

  function FilledShares(r: OrderResult): real {
    if r.matched > 0.0 then r.matched
    else if r.requestedSize.Some? then r.requestedSize.value - r.remaining
    else if r.notional > 0.0 && r.price.Some? && r.price.value > 0.0 then r.notional / r.price.value
    else 0.0
  }

  /** Python's `a or b` on optional numbers: zero is falsy. */
  function NonZeroOr(a: Option<real>, b: Option<real>): Option<real> {
    if a.Some? && a.value != 0.0 then a else b
  }

  /** The first order of the market whose id is the result's, or whose idempotency key is when the result has no id. */
  function FoundSize(ks: seq<string>, orders: map<string, Order>, r: OrderResult): real {
    if ks == [] then 0.0
    else if ks[0] in orders && orders[ks[0]].In(r.conditionId, r.tokenId)
            && (orders[ks[0]].orderId == r.orderId
                || (r.orderId == None && orders[ks[0]].idempotencyKey == if r.hasIntent then r.intentKey else None)) then
      NonZeroOr(orders[ks[0]].remaining, NonZeroOr(orders[ks[0]].size, Some(0.0))).value
    else FoundSize(ks[1..], orders, r)
  }

  function ExistingSize(b: Book, r: OrderResult): real {
    FoundSize(b.orders.order, b.orders.items, r)
  }

  function SellResultRemaining(r: OrderResult, i: Intent): real {
    var raw := if r.status in {Resting, PartialFill} && r.remaining <= 0.0 then i.size - FilledShares(r) else r.remaining;
    MaxReal(raw, 0.0)
  }

  function SellOrderId(r: OrderResult, i: Intent): string {
    OrElse(r.orderId, OrElse(i.idempotencyKey, Some(r.traceId + ":" + r.conditionId + ":" + r.tokenId + ":sell"))).value
  }

  function SellResultOrder(p: Position, r: OrderResult, i: Intent): Order {
    var id := SellOrderId(r, i);
    Order(r.conditionId, r.tokenId, Sell, StatusOf(r.status), OrElse(p.marketSlug, r.marketSlug), None,
          NonZeroOr(r.requestedSize, Some(i.size)), r.matched, Some(SellResultRemaining(r, i)), Some(id),
          OrElse(i.idempotencyKey, Some(id)))
  }

  /** The table after a sell result: a resting remainder is stored, a full fill removes its order. */
  function SellResultStored(b: Book, p: Position, r: OrderResult, i: Intent): Book {
    if r.status in {Resting, PartialFill} then b.UpsertOrder(SellResultOrder(p, r, i))
    else b.RemoveOrder(SellOrderId(r, i))
  }

  function SellResultPosition(b: Book, p: Position, r: OrderResult, i: Intent, now: int): Position {
    Position(p.conditionId, p.tokenId, p.shares, p.cost, OrElse(p.marketSlug, r.marketSlug), p.openBuy,
      MaxReal(p.openSell - ExistingSize(b, r), 0.0) + SellResultRemaining(r, i), p.pendingBuy, p.confirmed,
      OrElse(r.orderId, p.lastOrderId), OrElse(r.tradeId, p.lastTradeId), StatusName(r.status), Some(now), NO_AUTHORITY)
  }

  /** The stored position, else the one the caller's older snapshot held. */
  function FoundPosition(b: Book, c: string, t: string, fallback: Option<Position>): Option<Position> {
    if b.PositionOf(c, t).Some? then b.PositionOf(c, t) else fallback
  }

  function ApplySellResult(b: Book, r: OrderResult, i: Intent, fallback: Option<Position>, now: int): Book {
    var found := FoundPosition(b, r.conditionId, r.tokenId, fallback);
    if r.status !in {FullFill, PartialFill, Resting} || found.None? then b
    else SellResultStored(b, found.value, r, i).UpsertPosition(SellResultPosition(b, found.value, r, i, now))
  }

  function IntentOrderId(i: Intent): string {
    OrElse(i.idempotencyKey, Some(i.traceId + ":" + i.conditionId + ":" + i.tokenId + ":" +
      (if i.side.Buy? then "buy" else "sell"))).value
  }

  function BuyShares(i: Intent): real {
    if i.side.Buy? && i.price > 0.0 then i.amountUsdc / i.price else 0.0
  }

  /** The order a submitted intent leaves; a buy carries money but no share size. */
  function SubmittedOrder(i: Intent): Order {
    var id := IntentOrderId(i);
    Order(i.conditionId, i.tokenId, i.side, Submitted, i.marketSlug,
          if i.side.Buy? then Some(i.amountUsdc) else None,
          if i.side.Buy? then None else Some(i.size), 0.0,
          if i.side.Buy? then None else Some(i.size), Some(id), OrElse(i.idempotencyKey, Some(id)))
  }

  function SubmittedPosition(seen: Book, i: Intent, slug: Option<string>): Position {
    var shares := BuyShares(i);
    match seen.PositionOf(i.conditionId, i.tokenId)
    case None =>
      Position(i.conditionId, i.tokenId, 0.0, 0.0, slug, shares, if i.side.Sell? then i.size else 0.0, shares, 0.0,
               None, None, "unknown", None, NO_AUTHORITY)
    case Some(p) =>
      if i.side.Sell? then p.(openSell := Total(seen, i.conditionId, i.tokenId, Sell) + i.size)
      else p.(openBuy := p.openBuy + shares, pendingBuy := p.pendingBuy + shares)
  }

  /** The position is worked out from the snapshot the caller `seen`, which may be older than the store. */
  function ApplySubmittedIntent(b: Book, seen: Book, i: Intent, slug: Option<string>): Book {
    b.UpsertOrder(SubmittedOrder(i)).UpsertPosition(SubmittedPosition(seen, i, slug))
  }

  function CancelledPosition(p: Position, side: Option<Side>, target: Option<real>): Position {
    if side == Some(Buy) then p.(openBuy := 0.0, pendingBuy := 0.0)
    else p.(openSell := MaxReal(p.openSell - target.GetOr(0.0), 0.0))
  }

  /** A confirmed cancel: `seen` is the position in the caller's snapshot, `target` the open size the plan
      saw, None when it did not know the order. */
  function ApplyCancel(b: Book, seen: Option<Position>, id: string, side: Option<Side>, target: Option<real>): Book {
    var removed := b.RemoveOrder(id);
    if seen.None? then removed else removed.UpsertPosition(CancelledPosition(seen.value, side, target))
  }

  /** Rebuild one position's open figures from the open orders. */
  function RefreshCoverage(b: Book, c: string, t: string, slug: Option<string>, lastOrder: Option<string>,
                           lastTrade: Option<string>, status: string, at: Option<int>): Book {
    var buys, sells := Total(b, c, t, Buy), Total(b, c, t, Sell);
    var p := b.PositionOf(c, t);
    if p.None? && buys <= 0.0 && sells <= 0.0 then b
    else
      var base := p.GetOr(Position(c, t, 0.0, 0.0, slug, 0.0, 0.0, 0.0, 0.0, None, None, "unknown", None, NO_AUTHORITY));
      b.UpsertPosition(Position(base.conditionId, base.tokenId, base.shares, base.cost, OrElse(base.marketSlug, slug),
        buys, sells, buys, base.confirmed, lastOrder, lastTrade, status, at, NO_AUTHORITY))
  }

  function ReplacementRemaining(r: OrderResult, size: Option<real>): real {
    var raw := if r.status in {Resting, PartialFill} && r.remaining <= 0.0 && size.Some?
               then MaxReal(size.value - r.matched, 0.0) else r.remaining;
    MaxReal(raw, 0.0)
  }

  function ReplacementSize(source: Order, r: OrderResult): Option<real> {
    NonZeroOr(r.requestedSize, NonZeroOr(OpenShares(source), source.size))
  }

  function ReplacementId(r: OrderResult): string {
    OrElse(r.orderId, Some(r.traceId)).value
  }

  predicate ReplacementRests(r: OrderResult) {
    StatusOf(r.status) in {Created, Signed, Submitted, Live, Matched, PartiallyFilled}
  }

  function ReplacementOrder(marketSlug: string, source: Order, r: OrderResult): Order {
    var side := r.side.GetOr(source.side);
    var size := ReplacementSize(source, r);
    Order(r.conditionId, r.tokenId, side, StatusOf(r.status), OrElse(source.marketSlug, Some(marketSlug)),
          if r.requestedAmount.None? && side == Buy then source.amountUsdc else r.requestedAmount,
          size, r.matched, Some(ReplacementRemaining(r, size)), Some(ReplacementId(r)),
          if r.hasIntent then r.intentKey else Some(ReplacementId(r)))
  }

  function ReplaceStored(b: Book, marketSlug: string, source: Order, r: OrderResult): Book {
    var removed := b.RemoveOrder(OrderKey(source));
    if ReplacementRests(r) then removed.UpsertOrder(ReplacementOrder(marketSlug, source, r)) else removed
  }

  /** A replaced order: the old one goes, a resting new one comes, the coverage is rebuilt. */
  function ApplyReplaceResult(b: Book, marketSlug: string, source: Order, r: OrderResult): Book {
    RefreshCoverage(ReplaceStored(b, marketSlug, source, r), source.conditionId, source.tokenId, OrElse(source.marketSlug, Some(marketSlug)),
                    OrElse(r.orderId, Some(r.traceId)), r.tradeId, StatusName(r.status), r.ackAt)
  }

  // ---- a reconcile replacement, which keeps the figure incrementally ----

  datatype Replacement = Replacement(
    conditionId: string, tokenId: string, orderId: string, size: real, marketSlug: Option<string>,
    idempotencyKey: Option<string>)

  /** The first order of the market whose id, or key when it has none, is this one. */
  function FindOpen(ks: seq<string>, orders: map<string, Order>, c: string, t: string, id: string): Option<Order> {
    if ks == [] then None
    else if ks[0] in orders && orders[ks[0]].In(c, t)
            && OrElse(orders[ks[0]].orderId, orders[ks[0]].idempotencyKey) == Some(id) then Some(orders[ks[0]])
    else FindOpen(ks[1..], orders, c, t, id)
  }

  /** The replaced order in the current snapshot, else in the one the plan was made from. */
  function Replaced(b: Book, x: Replacement, older: Option<Order>): Option<Order> {
    var current := FindOpen(b.orders.order, b.orders.items, x.conditionId, x.tokenId, x.orderId);
    if current.Some? then current else older
  }

  predicate ReplaceAccepted(r: Option<OrderResult>) {
    r.None? || r.value.status !in {ResultRejected, ResultFailed, UnknownTimeout}
  }

  function NewOrderId(x: Replacement, r: Option<OrderResult>): string {
    if r.None? then x.orderId else OrElse(r.value.orderId, Some(x.orderId)).value
  }

  function NewStatus(r: Option<OrderResult>): OrderStatus {
    if r.None? then Submitted else StatusOf(r.value.status)
  }

  function NewRemaining(x: Replacement, r: Option<OrderResult>): real {
    var raw :=
      if r.None? then x.size
      else if r.value.status in {Resting, PartialFill} && r.value.remaining <= 0.0 then MaxReal(x.size - r.value.matched, 0.0)
      else r.value.remaining;
    MaxReal(raw, 0.0)
  }

  function NewSide(x: Replacement, r: Option<OrderResult>, replaced: Option<Order>): Side {
    var side := if replaced.None? then Sell else replaced.value.side;
    if r.None? then side else r.value.side.GetOr(side)
  }

  predicate NewRests(r: Option<OrderResult>) {
    NewStatus(r) in {Submitted, Live, PartiallyFilled, Created, Signed}
  }

  function NewOrder(x: Replacement, r: Option<OrderResult>, side: Side): Order {
    Order(x.conditionId, x.tokenId, side, NewStatus(r), x.marketSlug, None, Some(x.size),
          if r.None? then 0.0 else r.value.matched, Some(NewRemaining(x, r)), Some(NewOrderId(x, r)),
          OrElse(x.idempotencyKey, Some(NewOrderId(x, r))))
  }

  function ReconcileStored(b: Book, x: Replacement, r: Option<OrderResult>, side: Side): Book {
    var removed := b.RemoveOrder(x.orderId);
    if NewRests(r) then removed.UpsertOrder(NewOrder(x, r, side)) else removed.RemoveOrder(NewOrderId(x, r))
  }

  function ReplacedPosition(p: Position, side: Side, replaced: Option<Order>, remaining: real): Position {
    if side.Sell? then
      var size := if replaced.None? then 0.0 else OpenSize(replaced.value);
      p.(openSell := MaxReal(p.openSell - size, 0.0) + remaining)
    else
      var shares := if replaced.None? then 0.0 else OpenShares(replaced.value).GetOr(0.0);
      var buys := MaxReal(p.openBuy - shares, 0.0) + remaining;
      p.(openBuy := buys, pendingBuy := buys)
  }

  /** `older` and `fallback` are what the plan's snapshot held for the order and the position. */
  function ApplyReconcileReplace(b: Book, x: Replacement, r: Option<OrderResult>, older: Option<Order>, fallback: Option<Position>): Book {
    var p := FoundPosition(b, x.conditionId, x.tokenId, fallback);
    var replaced := Replaced(b, x, older);
    var side := NewSide(x, r, replaced);
    if !ReplaceAccepted(r) then b
    else if p.None? then ReconcileStored(b, x, r, side)
    else ReconcileStored(b, x, r, side).UpsertPosition(ReplacedPosition(p.value, side, replaced, NewRemaining(x, r)))
  }
}

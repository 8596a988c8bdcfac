/** The open-sell cache against the sum it stands for: when the incremental projections keep them
    equal, and that the rebuild always makes them equal. */
module Coverage {
  import opened Prelude
  import opened AccountModel
  import opened ProjectionModel

  /** The cached open-sell figure of a position, if there is one, is the sum over its open sell orders. */
  ghost predicate ExactSell(b: Book, c: string, t: string) {
    b.PositionOf(c, t).Some? ==> b.PositionOf(c, t).value.openSell == Total(b, c, t, Sell)
  }

  ghost predicate SellCoverage(b: Book) {
    forall c, t :: ExactSell(b, c, t)
  }

  /** The stored figure would be the sum if the sum were to move by this much. */
  ghost predicate Holds(b: Book, c: string, t: string, change: real) {
    b.PositionOf(c, t).Some? ==> b.PositionOf(c, t).value.openSell == Total(b, c, t, Sell) + change
  }

  /** Every projection edits the table of orders and then writes at most one position. */
  function Write(stored: Book, p: Option<Position>): Book {
    if p.None? then stored else stored.UpsertPosition(p.value)
  }

  /** A position is of this market token. */
  predicate Of(p: Position, c: string, t: string) {
    p.conditionId == c && p.tokenId == t
  }

  predicate SameHeld(p: Position, q: Position) {
    p.shares == q.shares && p.cost == q.cost && p.confirmed == q.confirmed
  }

  /** A write merges authority fields only: what is held and the open figures are the written ones. */
  lemma WrittenPosition(stored: Book, p: Position, c: string, t: string)
    ensures var n := stored.UpsertPosition(p).PositionOf(c, t);
      && (Of(p, c, t) ==> n.Some? && n.value.openSell == p.openSell && SameHeld(n.value, p))
      && (!Of(p, c, t) ==> n == stored.PositionOf(c, t))
  {}

  lemma WriteKeepsKeyed(stored: Book, p: Option<Position>)
    requires Keyed(stored)
    ensures Keyed(Write(stored, p)) && Write(stored, p).orders == stored.orders
  {
    hide OrderKey;
  }

  /** What that makes of one position, from how far the edit of the table moved its sum. */
  lemma WrittenExactly(b: Book, stored: Book, p: Option<Position>, c: string, t: string, change: real)
    requires Keyed(stored) && stored.positions == b.positions
    requires Total(stored, c, t, Sell) == Total(b, c, t, Sell) + change
    ensures Keyed(Write(stored, p)) && Write(stored, p).orders == stored.orders
    ensures p.Some? && Of(p.value, c, t) ==>
              (ExactSell(Write(stored, p), c, t) <==> p.value.openSell == Total(b, c, t, Sell) + change)
    ensures !(p.Some? && Of(p.value, c, t)) ==> (ExactSell(Write(stored, p), c, t) <==> Holds(b, c, t, change))
  {
    hide SumOver, Keyed, Merge;
    WriteKeepsKeyed(stored, p);
    if p.Some? {
      WrittenPosition(stored, p.value, c, t);
    }
  }

  lemma StoredOrder(b: Book, o: Order, k: string, c: string, t: string)
    requires Keyed(b)
    ensures Keyed(b.UpsertOrder(o)) && b.UpsertOrder(o).positions == b.positions
    ensures Keyed(b.RemoveOrder(k)) && b.RemoveOrder(k).positions == b.positions
    ensures Total(b.UpsertOrder(o), c, t, Sell) == Total(b, c, t, Sell) - WeightAt(b, OrderKey(o), c, t, Sell) + Weight(o, c, t, Sell)
    ensures Total(b.RemoveOrder(k), c, t, Sell) == Total(b, c, t, Sell) - WeightAt(b, k, c, t, Sell)
  {
    UpsertOrderTotal(b, o, c, t, Sell);
    RemoveOrderTotal(b, k, c, t, Sell);
  }

  // ---- one submit ----

  lemma SubmittedOrderKey(i: Intent)
    ensures OrderKey(SubmittedOrder(i)) == IntentOrderId(i)
  {
    assert |i.traceId + ":" + i.conditionId + ":" + i.tokenId + ":" + (if i.side.Buy? then "buy" else "sell")| >= 3;
  }

  /** The open-sell figure a submit starts from: a sell sums the orders of the snapshot it was given, a buy
      carries the snapshot's figure along. */
  function SeenOpen(seen: Book, i: Intent): real {
    match seen.PositionOf(i.conditionId, i.tokenId)
    case None => 0.0
    case Some(p) => if i.side.Sell? then Total(seen, i.conditionId, i.tokenId, Sell) else p.openSell
  }

  /** The shares a submitted sell asks for. */
  function Asked(i: Intent): real { if i.side.Sell? then i.size else 0.0 }

  function SubmitChange(b: Book, i: Intent, c: string, t: string): real {
    (if (c, t) == (i.conditionId, i.tokenId) then Asked(i) else 0.0) - WeightAt(b, IntentOrderId(i), c, t, Sell)
  }

  lemma SubmitAt(b: Book, seen: Book, i: Intent, slug: Option<string>, c: string, t: string)
    requires Keyed(b) && Keyed(seen)
    ensures Keyed(ApplySubmittedIntent(b, seen, i, slug))
    ensures (c, t) == (i.conditionId, i.tokenId) ==>
              (ExactSell(ApplySubmittedIntent(b, seen, i, slug), c, t) <==>
               SeenOpen(seen, i) + Asked(i) == Total(b, c, t, Sell) + SubmitChange(b, i, c, t))
    ensures (c, t) != (i.conditionId, i.tokenId) ==>
              (ExactSell(ApplySubmittedIntent(b, seen, i, slug), c, t) <==> Holds(b, c, t, SubmitChange(b, i, c, t)))
  {
    hide SumOver, OrderKey, IntentOrderId, ExactSell, Holds;
    var o, p := SubmittedOrder(i), SubmittedPosition(seen, i, slug);
    SubmittedOrderKey(i);
    StoredOrder(b, o, "", c, t);
    assert Of(p, i.conditionId, i.tokenId) && p.openSell == SeenOpen(seen, i) + Asked(i);
    WrittenExactly(b, b.UpsertOrder(o), Some(p), c, t, SubmitChange(b, i, c, t));
  }

  /** A submit leaves its position exact if and only if the figure it starts from, taken from a snapshot
      that may be older than the store, is what the store still holds besides the order it replaces. */
  lemma SubmitExactly(b: Book, seen: Book, i: Intent, slug: Option<string>)
    requires Keyed(b) && Keyed(seen)
    ensures ExactSell(ApplySubmittedIntent(b, seen, i, slug), i.conditionId, i.tokenId) <==>
            SeenOpen(seen, i) ==
              Total(b, i.conditionId, i.tokenId, Sell) - WeightAt(b, IntentOrderId(i), i.conditionId, i.tokenId, Sell)
  {
    hide Total, WeightAt, IntentOrderId, ExactSell, SeenOpen, ApplySubmittedIntent;
    SubmitAt(b, seen, i, slug, i.conditionId, i.tokenId);
  }

  // ---- one sell result ----

  lemma SellOrderIdTruthy(r: OrderResult, i: Intent)
    ensures SellOrderId(r, i) != ""
  {
    assert |r.traceId + ":" + r.conditionId + ":" + r.tokenId + ":sell"| >= 5;
  }

  /** A result is projected when it reports fills or rests. */
  predicate ResultActs(r: OrderResult) { r.status in {FullFill, PartialFill, Resting} }

  function ResultChange(b: Book, r: OrderResult, i: Intent, c: string, t: string): real {
    (if r.status == FullFill || (c, t) != (r.conditionId, r.tokenId) then 0.0 else SellResultRemaining(r, i))
      - WeightAt(b, SellOrderId(r, i), c, t, Sell)
  }

  lemma SellResultTotal(b: Book, p: Position, r: OrderResult, i: Intent, c: string, t: string)
    requires Keyed(b) && ResultActs(r)
    ensures Keyed(SellResultStored(b, p, r, i)) && SellResultStored(b, p, r, i).positions == b.positions
    ensures Total(SellResultStored(b, p, r, i), c, t, Sell) == Total(b, c, t, Sell) + ResultChange(b, r, i, c, t)
  {
    hide SumOver, SellResultRemaining;
    var o := SellResultOrder(p, r, i);
    SellOrderIdTruthy(r, i);
    assert OrderKey(o) == SellOrderId(r, i);
    StoredOrder(b, o, SellOrderId(r, i), c, t);
  }

  /** The figure a sell result writes into the position it found. */
  function ResultFigure(b: Book, p: Position, r: OrderResult, i: Intent): real {
    MaxReal(p.openSell - ExistingSize(b, r), 0.0) + SellResultRemaining(r, i)
  }

  lemma ResultAt(b: Book, r: OrderResult, i: Intent, fallback: Option<Position>, now: int, c: string, t: string)
    requires Keyed(b) && ResultActs(r) && (fallback.Some? ==> Of(fallback.value, r.conditionId, r.tokenId))
    ensures var found := FoundPosition(b, r.conditionId, r.tokenId, fallback);
      var n := ApplySellResult(b, r, i, fallback, now);
      found.Some? ==>
        && Keyed(n)
        && ((c, t) == (r.conditionId, r.tokenId) ==>
              (ExactSell(n, c, t) <==> ResultFigure(b, found.value, r, i) == Total(b, c, t, Sell) + ResultChange(b, r, i, c, t)))
        && ((c, t) != (r.conditionId, r.tokenId) ==> (ExactSell(n, c, t) <==> Holds(b, c, t, ResultChange(b, r, i, c, t))))
  {
    hide SumOver, OrderKey, ExactSell, Holds, SellResultStored, SellOrderId, SellResultRemaining, ExistingSize, ResultChange;
    var found := FoundPosition(b, r.conditionId, r.tokenId, fallback);
    if found.Some? {
      var p := SellResultPosition(b, found.value, r, i, now);
      SellResultTotal(b, found.value, r, i, c, t);
      assert Of(p, r.conditionId, r.tokenId) && p.openSell == ResultFigure(b, found.value, r, i);
      WrittenExactly(b, SellResultStored(b, found.value, r, i), Some(p), c, t, ResultChange(b, r, i, c, t));
    }
  }

  /** From an exact position, a sell result keeps it exact if and only if the size the projection
      found for the order, capped by the open total, is what the replaced order contributed - plus,
      for a full fill, whatever the result still reports as remaining. */
  lemma SellResultExactly(b: Book, r: OrderResult, i: Intent, fallback: Option<Position>, now: int)
    requires Keyed(b) && r.status in {FullFill, PartialFill, Resting}
    requires b.PositionOf(r.conditionId, r.tokenId).Some? && ExactSell(b, r.conditionId, r.tokenId)
    ensures ExactSell(ApplySellResult(b, r, i, fallback, now), r.conditionId, r.tokenId) <==>
            MinReal(ExistingSize(b, r), Total(b, r.conditionId, r.tokenId, Sell)) ==
              WeightAt(b, SellOrderId(r, i), r.conditionId, r.tokenId, Sell)
                + (if r.status == FullFill then SellResultRemaining(r, i) else 0.0)
  {
    hide Total, WeightAt, SellOrderId, SellResultRemaining, ExistingSize, OrderKey, SellResultStored, SellResultPosition;
    assert ApplySellResult(b, r, i, fallback, now) == ApplySellResult(b, r, i, None, now);
    ResultAt(b, r, i, None, now, r.conditionId, r.tokenId);
  }

  /** Other positions stay exact if and only if the order under the result's key is none of theirs. */
  lemma SellResultElsewhere(b: Book, r: OrderResult, i: Intent, fallback: Option<Position>, now: int, c: string, t: string)
    requires Keyed(b) && ResultActs(r) && (fallback.Some? ==> Of(fallback.value, r.conditionId, r.tokenId))
    requires FoundPosition(b, r.conditionId, r.tokenId, fallback).Some?
    requires (c, t) != (r.conditionId, r.tokenId) && ExactSell(b, c, t) && b.PositionOf(c, t).Some?
    ensures ExactSell(ApplySellResult(b, r, i, fallback, now), c, t) <==> WeightAt(b, SellOrderId(r, i), c, t, Sell) == 0.0
  {
    hide Total, WeightAt, SellOrderId, SellResultRemaining, ExistingSize, OrderKey, ApplySellResult;
    ResultAt(b, r, i, fallback, now, c, t);
  }

  // ---- one confirmed cancel ----

  lemma CancelAt(b: Book, held: Option<Position>, id: string, side: Option<Side>, target: Option<real>, c: string, t: string)
    requires Keyed(b)
    ensures var n := ApplyCancel(b, held, id, side, target);
      var change := -WeightAt(b, id, c, t, Sell);
      && Keyed(n)
      && (held.Some? && Of(held.value, c, t) ==>
            (ExactSell(n, c, t) <==> CancelledPosition(held.value, side, target).openSell == Total(b, c, t, Sell) + change))
      && (!(held.Some? && Of(held.value, c, t)) ==> (ExactSell(n, c, t) <==> Holds(b, c, t, change)))
  {
    hide SumOver, OrderKey, ExactSell, Holds, WeightAt;
    RemoveOrderTotal(b, id, c, t, Sell);
    assert Keyed(b.RemoveOrder(id));
    var p := if held.None? then None else Some(CancelledPosition(held.value, side, target));
    WrittenExactly(b, b.RemoveOrder(id), p, c, t, -WeightAt(b, id, c, t, Sell));
  }

  /** A confirmed cancel leaves its position exact if and only if the figure worked out from the position
      the plan saw - which a buy's cancel hands back as it was - is what the store still holds besides the
      order; a cancel that saw no position, if and only if the stored figure already left that order out. */
  lemma CancelExactly(b: Book, held: Option<Position>, id: string, c: string, t: string, side: Option<Side>, target: Option<real>)
    requires Keyed(b) && (held.Some? ==> Of(held.value, c, t))
    ensures var left := Total(b, c, t, Sell) - WeightAt(b, id, c, t, Sell);
      ExactSell(ApplyCancel(b, held, id, side, target), c, t) <==>
      match held
      case Some(p) => (if side == Some(Buy) then p.openSell else MaxReal(p.openSell - target.GetOr(0.0), 0.0)) == left
      case None => b.PositionOf(c, t).None? || b.PositionOf(c, t).value.openSell == left
  {
    hide Total, WeightAt, ExactSell, ApplyCancel;
    CancelAt(b, held, id, side, target, c, t);
  }

  /** With the stored position in hand and exact, that is: the size taken away, capped by the open total,
      is what the removed order contributed. */
  lemma CurrentCancelExactly(b: Book, id: string, c: string, t: string, side: Option<Side>, target: Option<real>)
    requires Keyed(b) && b.PositionOf(c, t).Some? && ExactSell(b, c, t) && side != Some(Buy)
    ensures ExactSell(ApplyCancel(b, b.PositionOf(c, t), id, side, target), c, t) <==>
            MinReal(target.GetOr(0.0), Total(b, c, t, Sell)) == WeightAt(b, id, c, t, Sell)
  {
    hide Total, WeightAt, ApplyCancel;
    CancelExactly(b, b.PositionOf(c, t), id, c, t, side, target);
  }

  /** With an older snapshot that was exact and knew the order's size: if and only if the other open sells
      still sum to what they did then. */
  lemma StaleCancelExactly(b: Book, seen: Book, id: string, c: string, t: string, side: Option<Side>)
    requires Keyed(b) && Keyed(seen) && NonNegative(seen) && side != Some(Buy)
    requires seen.PositionOf(c, t).Some? && ExactSell(seen, c, t)
    ensures ExactSell(ApplyCancel(b, seen.PositionOf(c, t), id, side, Some(WeightAt(seen, id, c, t, Sell))), c, t) <==>
            Total(seen, c, t, Sell) - WeightAt(seen, id, c, t, Sell) == Total(b, c, t, Sell) - WeightAt(b, id, c, t, Sell)
  {
    hide SumOver, Weight, ApplyCancel, NonNegative;
    WeightFits(seen.orders.order, seen, id, c, t);
    CancelExactly(b, seen.PositionOf(c, t), id, c, t, side, Some(WeightAt(seen, id, c, t, Sell)));
  }

  // ---- one replaced order ----

  function ReplaceChange(b: Book, slug: string, source: Order, r: OrderResult, c: string, t: string): real {
    var o := ReplacementOrder(slug, source, r);
    (if ReplacementRests(r) then Weight(o, c, t, Sell) - WeightAt(b.RemoveOrder(OrderKey(source)), OrderKey(o), c, t, Sell) else 0.0)
      - WeightAt(b, OrderKey(source), c, t, Sell)
  }

  lemma ReplaceStoredTotal(b: Book, slug: string, source: Order, r: OrderResult, c: string, t: string)
    requires Keyed(b)
    ensures Keyed(ReplaceStored(b, slug, source, r)) && ReplaceStored(b, slug, source, r).positions == b.positions
    ensures Total(ReplaceStored(b, slug, source, r), c, t, Sell) == Total(b, c, t, Sell) + ReplaceChange(b, slug, source, r, c, t)
  {
    hide SumOver, Weight, OrderKey, ReplacementOrder, ReplacementRests, WeightAt;
    var o, removed := ReplacementOrder(slug, source, r), b.RemoveOrder(OrderKey(source));
    StoredOrder(b, o, OrderKey(source), c, t);
    StoredOrder(removed, o, OrderKey(source), c, t);
  }

  /** What the rebuild writes into a position, if anything. */
  function Refreshed(b: Book, c: string, t: string, slug: Option<string>, lastOrder: Option<string>,
                     lastTrade: Option<string>, status: string, at: Option<int>): Option<Position> {
    var buys, sells := Total(b, c, t, Buy), Total(b, c, t, Sell);
    var p := b.PositionOf(c, t);
    if p.None? && buys <= 0.0 && sells <= 0.0 then None
    else
      var base := p.GetOr(Position(c, t, 0.0, 0.0, slug, 0.0, 0.0, 0.0, 0.0, None, None, "unknown", None, NO_AUTHORITY));
      Some(Position(base.conditionId, base.tokenId, base.shares, base.cost, OrElse(base.marketSlug, slug),
        buys, sells, buys, base.confirmed, lastOrder, lastTrade, status, at, NO_AUTHORITY))
  }

  lemma RefreshWrites(b: Book, c: string, t: string, slug: Option<string>, lastOrder: Option<string>,
                      lastTrade: Option<string>, status: string, at: Option<int>)
    requires Keyed(b)
    ensures var p := Refreshed(b, c, t, slug, lastOrder, lastTrade, status, at);
      && RefreshCoverage(b, c, t, slug, lastOrder, lastTrade, status, at) == Write(b, p)
      && (p.Some? ==> Of(p.value, c, t) && p.value.openSell == Total(b, c, t, Sell)
                      && p.value.openBuy == p.value.pendingBuy == Total(b, c, t, Buy))
      && (p.None? ==> b.PositionOf(c, t).None?)
  {
    hide SumOver, Total, OrderKey;
  }

  /** The rebuild makes one position's figures the sums, touching no order and no other position. */
  lemma RefreshRebuilds(b: Book, c: string, t: string, slug: Option<string>, lastOrder: Option<string>,
                        lastTrade: Option<string>, status: string, at: Option<int>)
    requires Keyed(b)
    ensures var n := RefreshCoverage(b, c, t, slug, lastOrder, lastTrade, status, at);
      && Keyed(n) && n.orders == b.orders
      && ExactSell(n, c, t)
      && (n.PositionOf(c, t).Some? ==>
            n.PositionOf(c, t).value.openBuy == n.PositionOf(c, t).value.pendingBuy == Total(b, c, t, Buy))
      && (forall d, u :: (d, u) != (c, t) ==> n.PositionOf(d, u) == b.PositionOf(d, u))
  {
    hide SumOver, OrderKey, RefreshCoverage, Refreshed;
    RefreshWrites(b, c, t, slug, lastOrder, lastTrade, status, at);
  }

  lemma ReplaceAt(b: Book, slug: string, source: Order, r: OrderResult, c: string, t: string)
    requires Keyed(b)
    ensures var n := ApplyReplaceResult(b, slug, source, r);
      && Keyed(n) && n.orders == ReplaceStored(b, slug, source, r).orders
      && (source.In(c, t) ==> ExactSell(n, c, t))
      && (!source.In(c, t) ==> (ExactSell(n, c, t) <==> Holds(b, c, t, ReplaceChange(b, slug, source, r, c, t))))
  {
    hide SumOver, OrderKey, Refreshed, ReplacementOrder, ReplacementRests, RefreshCoverage, ReplaceStored, ReplaceChange,
         StatusName, WeightAt;
    var stored := ReplaceStored(b, slug, source, r);
    var newSlug, last := OrElse(source.marketSlug, Some(slug)), OrElse(r.orderId, Some(r.traceId));
    ReplaceStoredTotal(b, slug, source, r, c, t);
    RefreshRebuilds(stored, source.conditionId, source.tokenId, newSlug, last, r.tradeId, StatusName(r.status), r.ackAt);
  }

  // ---- one reconcile replacement ----

  lemma OrderKeyTruthy(o: Order)
    ensures OrderKey(o) != ""
  {
    assert |o.conditionId + ":" + o.tokenId + ":" + SideText(o.side) + ":" + StatusText(o.status)| >= 3;
  }

  lemma {:induction false} FindOpenTracked(ks: seq<string>, b: Book, c: string, t: string, id: string)
    requires Keyed(b) && id != "" && id in ks && forall k :: k in ks ==> k in b.orders.items
    requires b.orders.items[id].In(c, t) && b.orders.items[id].orderId == Some(id)
    ensures FindOpen(ks, b.orders.items, c, t, id) == Some(b.orders.items[id])
  {
    assert OrderKey(b.orders.items[ks[0]]) == ks[0];
    if ks[0] != id {
      FindOpenTracked(ks[1..], b, c, t, id);
    }
  }

  /** What the replacement takes out of the table, by the sum's reckoning. */
  function TakenOut(b: Book, x: Replacement, r: Option<OrderResult>, side: Side, c: string, t: string): real {
    WeightAt(b, x.orderId, c, t, Sell)
      + WeightAt(b.RemoveOrder(x.orderId), if NewRests(r) then OrderKey(NewOrder(x, r, side)) else NewOrderId(x, r), c, t, Sell)
  }

  /** What it puts in: a resting sell's remainder, into its own market token. */
  function PutIn(x: Replacement, r: Option<OrderResult>, side: Side, c: string, t: string): real {
    if NewRests(r) && side.Sell? && (c, t) == (x.conditionId, x.tokenId) then NewRemaining(x, r) else 0.0
  }

  function ReconcileChange(b: Book, x: Replacement, r: Option<OrderResult>, side: Side, c: string, t: string): real {
    PutIn(x, r, side, c, t) - TakenOut(b, x, r, side, c, t)
  }

  lemma ReconcileStoredTotal(b: Book, x: Replacement, r: Option<OrderResult>, side: Side, c: string, t: string)
    requires Keyed(b)
    ensures Keyed(ReconcileStored(b, x, r, side)) && ReconcileStored(b, x, r, side).positions == b.positions
    ensures Total(ReconcileStored(b, x, r, side), c, t, Sell) == Total(b, c, t, Sell) + ReconcileChange(b, x, r, side, c, t)
  {
    hide SumOver, OrderKey, WeightAt, NewRemaining, NewOrderId;
    var removed := b.RemoveOrder(x.orderId);
    StoredOrder(b, NewOrder(x, r, side), x.orderId, c, t);
    StoredOrder(removed, NewOrder(x, r, side), NewOrderId(x, r), c, t);
  }

  lemma ReconcileAt(b: Book, x: Replacement, r: Option<OrderResult>, older: Option<Order>, fallback: Option<Position>,
                    c: string, t: string)
    requires Keyed(b) && ReplaceAccepted(r) && (fallback.Some? ==> Of(fallback.value, x.conditionId, x.tokenId))
    ensures var found := FoundPosition(b, x.conditionId, x.tokenId, fallback);
      var replaced := Replaced(b, x, older);
      var side := NewSide(x, r, replaced);
      var change := ReconcileChange(b, x, r, side, c, t);
      var n := ApplyReconcileReplace(b, x, r, older, fallback);
      && Keyed(n) && n.orders == ReconcileStored(b, x, r, side).orders
      && (found.Some? && (c, t) == (x.conditionId, x.tokenId) ==>
            (ExactSell(n, c, t) <==>
             ReplacedPosition(found.value, side, replaced, NewRemaining(x, r)).openSell == Total(b, c, t, Sell) + change))
      && (found.None? || (c, t) != (x.conditionId, x.tokenId) ==> (ExactSell(n, c, t) <==> Holds(b, c, t, change)))
  {
    hide SumOver, OrderKey, ExactSell, Holds, ReconcileStored, ReconcileChange, NewRemaining, Replaced, NewSide, ReplaceAccepted,
         OpenSize, OpenShares;
    var found, replaced := FoundPosition(b, x.conditionId, x.tokenId, fallback), Replaced(b, x, older);
    var side := NewSide(x, r, replaced);
    var p := if found.None? then None else Some(ReplacedPosition(found.value, side, replaced, NewRemaining(x, r)));
    ReconcileStoredTotal(b, x, r, side, c, t);
    assert p.Some? ==> Of(p.value, x.conditionId, x.tokenId);
    WrittenExactly(b, ReconcileStored(b, x, r, side), p, c, t, ReconcileChange(b, x, r, side, c, t));
  }

  /** From an exact position, an accepted reconcile replacement of a sell keeps it exact if and only if
      the size found for the old order, capped by the open total, is what left the table - plus
      whatever the answer reports as remaining on a replacement that does not rest. */
  lemma ReconcileReplaceExactly(b: Book, x: Replacement, r: Option<OrderResult>, older: Option<Order>, fallback: Option<Position>)
    requires Keyed(b) && b.PositionOf(x.conditionId, x.tokenId).Some? && ExactSell(b, x.conditionId, x.tokenId)
    requires ReplaceAccepted(r) && NewSide(x, r, Replaced(b, x, older)) == Sell
    ensures var found := Replaced(b, x, older);
      ExactSell(ApplyReconcileReplace(b, x, r, older, fallback), x.conditionId, x.tokenId) <==>
      MinReal(if found.None? then 0.0 else OpenSize(found.value), Total(b, x.conditionId, x.tokenId, Sell)) ==
        TakenOut(b, x, r, Sell, x.conditionId, x.tokenId) + (if NewRests(r) then 0.0 else NewRemaining(x, r))
  {
    hide Total, OrderKey, ReconcileStored, NewRemaining, Replaced, NewSide, OpenSize, NewRests, TakenOut, ReplaceAccepted;
    assert ApplyReconcileReplace(b, x, r, older, fallback) == ApplyReconcileReplace(b, x, r, older, None);
    ReconcileAt(b, x, r, older, None, x.conditionId, x.tokenId);
  }

  // ---- any projection ----

  datatype Projection =
    | Submitted(seen: Book, i: Intent, slug: Option<string>)
    | Resulted(r: OrderResult, i: Intent, fallback: Option<Position>, now: int)
    | CancelConfirmed(c: string, t: string, held: Option<Position>, id: string, side: Option<Side>, target: Option<real>)
    | ReplaceResulted(marketSlug: string, source: Order, r: OrderResult)
    | ReconcileReplaced(x: Replacement, answer: Option<OrderResult>, older: Option<Order>, fallback: Option<Position>)

  function Project(b: Book, p: Projection): Book {
    match p
    case Submitted(seen, i, slug) => ApplySubmittedIntent(b, seen, i, slug)
    case Resulted(r, i, fallback, now) => ApplySellResult(b, r, i, fallback, now)
    case CancelConfirmed(_, _, held, id, side, target) => ApplyCancel(b, held, id, side, target)
    case ReplaceResulted(slug, source, r) => ApplyReplaceResult(b, slug, source, r)
    case ReconcileReplaced(x, r, older, fallback) => ApplyReconcileReplace(b, x, r, older, fallback)
  }

  /** The market token a projection is about. */
  function Token(p: Projection): PositionKey {
    match p
    case Submitted(_, i, _) => (i.conditionId, i.tokenId)
    case Resulted(r, _, _, _) => (r.conditionId, r.tokenId)
    case CancelConfirmed(c, t, _, _, _, _) => (c, t)
    case ReplaceResulted(_, source, _) => (source.conditionId, source.tokenId)
    case ReconcileReplaced(x, _, _, _) => (x.conditionId, x.tokenId)
  }

  /** What the caller brings from its older snapshot was looked up there under the market token at hand. */
  ghost predicate LookedUp(p: Projection) {
    var (c, t) := Token(p);
    match p
    case Submitted(seen, _, _) => Keyed(seen)
    case Resulted(_, _, fallback, _) => fallback.Some? ==> Of(fallback.value, c, t)
    case CancelConfirmed(_, _, held, _, _, _) => held.Some? ==> Of(held.value, c, t)
    case ReplaceResulted(_, _, _) => true
    case ReconcileReplaced(_, _, _, fallback) => fallback.Some? ==> Of(fallback.value, c, t)
  }

  /** How far a projection moves the sum of open sells of a market token. */
  function NetChange(b: Book, p: Projection, c: string, t: string): real {
    match p
    case Submitted(_, i, _) => SubmitChange(b, i, c, t)
    case Resulted(r, i, fallback, _) =>
      if ResultActs(r) && FoundPosition(b, r.conditionId, r.tokenId, fallback).Some? then ResultChange(b, r, i, c, t) else 0.0
    case CancelConfirmed(_, _, _, id, _, _) => -WeightAt(b, id, c, t, Sell)
    case ReplaceResulted(slug, source, r) => ReplaceChange(b, slug, source, r, c, t)
    case ReconcileReplaced(x, r, older, _) =>
      if ReplaceAccepted(r) then ReconcileChange(b, x, r, NewSide(x, r, Replaced(b, x, older)), c, t) else 0.0
  }

  /** The open-sell figure a projection works out for its own position, where it writes one; the rebuild
      after a replacement takes the sum itself. */
  function Figure(b: Book, p: Projection): Option<real> {
    var (c, t) := Token(p);
    match p
    case Submitted(seen, i, _) => Some(SeenOpen(seen, i) + Asked(i))
    case Resulted(r, i, fallback, _) =>
      var found := FoundPosition(b, c, t, fallback);
      if ResultActs(r) && found.Some? then Some(ResultFigure(b, found.value, r, i)) else None
    case CancelConfirmed(_, _, held, _, side, target) =>
      if held.None? then None else Some(CancelledPosition(held.value, side, target).openSell)
    case ReplaceResulted(slug, source, r) => Some(Total(b, c, t, Sell) + ReplaceChange(b, slug, source, r, c, t))
    case ReconcileReplaced(x, r, older, fallback) =>
      var found, replaced := FoundPosition(b, c, t, fallback), Replaced(b, x, older);
      if ReplaceAccepted(r) && found.Some? then
        Some(ReplacedPosition(found.value, NewSide(x, r, replaced), replaced, NewRemaining(x, r)).openSell)
      else None
  }

  /** The figure a projection is about to write is where the sum is about to be; a position it does not
      write must not see its sum move. */
  ghost predicate FitsAt(b: Book, p: Projection, c: string, t: string) {
    if (c, t) == Token(p) && Figure(b, p).Some? then Figure(b, p).value == Total(b, c, t, Sell) + NetChange(b, p, c, t)
    else b.PositionOf(c, t).Some? ==> NetChange(b, p, c, t) == 0.0
  }

  lemma HoldsExactly(b: Book, c: string, t: string, change: real)
    requires ExactSell(b, c, t)
    ensures Holds(b, c, t, change) <==> (b.PositionOf(c, t).Some? ==> change == 0.0)
  {
    hide Total;
  }

  lemma SubmitFits(b: Book, p: Projection, c: string, t: string)
    requires Keyed(b) && LookedUp(p) && ExactSell(b, c, t) && p.Submitted?
    ensures Keyed(Project(b, p)) && (ExactSell(Project(b, p), c, t) <==> FitsAt(b, p, c, t))
  {
    hide Total, Keyed, ApplySubmittedIntent, SubmitChange, SeenOpen, ExactSell, Holds;
    SubmitAt(b, p.seen, p.i, p.slug, c, t);
    HoldsExactly(b, c, t, SubmitChange(b, p.i, c, t));
  }

  lemma ResultFits(b: Book, p: Projection, c: string, t: string)
    requires Keyed(b) && LookedUp(p) && ExactSell(b, c, t) && p.Resulted?
    ensures Keyed(Project(b, p)) && (ExactSell(Project(b, p), c, t) <==> FitsAt(b, p, c, t))
  {
    if ResultActs(p.r) && FoundPosition(b, p.r.conditionId, p.r.tokenId, p.fallback).Some? {
      hide Total, Keyed, ApplySellResult, ResultChange, ResultFigure, ExactSell, Holds, FoundPosition;
      ResultAt(b, p.r, p.i, p.fallback, p.now, c, t);
      HoldsExactly(b, c, t, ResultChange(b, p.r, p.i, c, t));
    }
  }

  lemma CancelFits(b: Book, p: Projection, c: string, t: string)
    requires Keyed(b) && LookedUp(p) && ExactSell(b, c, t) && p.CancelConfirmed?
    ensures Keyed(Project(b, p)) && (ExactSell(Project(b, p), c, t) <==> FitsAt(b, p, c, t))
  {
    hide Total, Keyed, ApplyCancel, WeightAt, CancelledPosition, ExactSell, Holds;
    CancelAt(b, p.held, p.id, p.side, p.target, c, t);
    HoldsExactly(b, c, t, -WeightAt(b, p.id, c, t, Sell));
  }

  lemma ReplaceFits(b: Book, p: Projection, c: string, t: string)
    requires Keyed(b) && LookedUp(p) && ExactSell(b, c, t) && p.ReplaceResulted?
    ensures Keyed(Project(b, p)) && (ExactSell(Project(b, p), c, t) <==> FitsAt(b, p, c, t))
  {
    hide Total, Keyed, ApplyReplaceResult, ReplaceChange, ExactSell, Holds, ReplaceStored;
    ReplaceAt(b, p.marketSlug, p.source, p.r, c, t);
    HoldsExactly(b, c, t, ReplaceChange(b, p.marketSlug, p.source, p.r, c, t));
  }

  lemma ReconcileTerms(b: Book, p: Projection, c: string, t: string)
    requires p.ReconcileReplaced? && ReplaceAccepted(p.answer)
    ensures var found, replaced := FoundPosition(b, p.x.conditionId, p.x.tokenId, p.fallback), Replaced(b, p.x, p.older);
      var side := NewSide(p.x, p.answer, replaced);
      && NetChange(b, p, c, t) == ReconcileChange(b, p.x, p.answer, side, c, t)
      && (Figure(b, p).Some? <==> found.Some?)
      && (found.Some? ==> Figure(b, p).value == ReplacedPosition(found.value, side, replaced, NewRemaining(p.x, p.answer)).openSell)
  {}

  lemma FitsFrom(b: Book, p: Projection, n: Book, figure: Option<real>, change: real, c: string, t: string)
    requires Figure(b, p) == figure && NetChange(b, p, c, t) == change && ExactSell(b, c, t)
    requires figure.Some? && (c, t) == Token(p) ==> (ExactSell(n, c, t) <==> figure.value == Total(b, c, t, Sell) + change)
    requires figure.None? || (c, t) != Token(p) ==> (ExactSell(n, c, t) <==> Holds(b, c, t, change))
    ensures ExactSell(n, c, t) <==> FitsAt(b, p, c, t)
  {
    hide Total, Figure, NetChange, ExactSell, Holds, Token;
    HoldsExactly(b, c, t, change);
  }

  lemma ReconcileFits(b: Book, p: Projection, c: string, t: string)
    requires Keyed(b) && LookedUp(p) && ExactSell(b, c, t) && p.ReconcileReplaced?
    ensures Keyed(Project(b, p)) && (ExactSell(Project(b, p), c, t) <==> FitsAt(b, p, c, t))
  {
    if ReplaceAccepted(p.answer) {
      hide Total, Keyed, ApplyReconcileReplace, ReconcileChange, ExactSell, Holds, FoundPosition, Replaced, NewSide, NewRemaining,
           ReplacedPosition, ReplaceAccepted, NetChange, Figure, FitsAt;
      ReconcileTerms(b, p, c, t);
      ReconcileAt(b, p.x, p.answer, p.older, p.fallback, c, t);
      FitsFrom(b, p, Project(b, p), Figure(b, p), NetChange(b, p, c, t), c, t);
    }
  }

  ghost predicate Fits(b: Book, p: Projection) {
    forall c, t :: FitsAt(b, p, c, t)
  }

  lemma ProjectAt(b: Book, p: Projection, c: string, t: string)
    requires Keyed(b) && LookedUp(p) && ExactSell(b, c, t)
    ensures Keyed(Project(b, p)) && (ExactSell(Project(b, p), c, t) <==> FitsAt(b, p, c, t))
  {
    hide Keyed, LookedUp, ExactSell, Project, FitsAt;
    match p
    case Submitted(_, _, _) => SubmitFits(b, p, c, t);
    case Resulted(_, _, _, _) => ResultFits(b, p, c, t);
    case CancelConfirmed(_, _, _, _, _, _) => CancelFits(b, p, c, t);
    case ReplaceResulted(_, _, _) => ReplaceFits(b, p, c, t);
    case ReconcileReplaced(_, _, _, _) => ReconcileFits(b, p, c, t);
  }

  /** From exact figures everywhere, any projection leaves them exact everywhere if and only if it fits:
      the figure it writes meets the sum as it will be, and no position it does not write sees its own
      sum moved. */
  lemma ProjectExactly(b: Book, p: Projection)
    requires Keyed(b) && LookedUp(p) && SellCoverage(b)
    ensures Keyed(Project(b, p)) && (SellCoverage(Project(b, p)) <==> Fits(b, p))
  {
    hide Keyed, LookedUp, ExactSell, Project, FitsAt;
    forall c, t ensures Keyed(Project(b, p)) && (ExactSell(Project(b, p), c, t) <==> FitsAt(b, p, c, t)) {
      assert ExactSell(b, c, t);
      ProjectAt(b, p, c, t);
    }
    assert ExactSell(b, "", "");
    ProjectAt(b, p, "", "");
  }

  // ---- runs of projections ----

  function ProjectAll(b: Book, ps: seq<Projection>): Book
    decreases |ps|
  {
    if ps == [] then b else ProjectAll(Project(b, ps[0]), ps[1..])
  }

  ghost predicate CoveredThroughout(b: Book, ps: seq<Projection>)
    decreases |ps|
  {
    SellCoverage(b) && (ps != [] ==> CoveredThroughout(Project(b, ps[0]), ps[1..]))
  }

  ghost predicate FitThroughout(b: Book, ps: seq<Projection>)
    decreases |ps|
  {
    ps != [] ==> Fits(b, ps[0]) && FitThroughout(Project(b, ps[0]), ps[1..])
  }

  /** Over any run of submits, results, cancels and replacements, whatever snapshots they were planned on,
      the open-sell figures are the sums all along if and only if every one of them fits its moment. */
  lemma {:induction false} RunCoversExactly(b: Book, ps: seq<Projection>)
    requires Keyed(b) && SellCoverage(b) && forall p :: p in ps ==> LookedUp(p)
    ensures CoveredThroughout(b, ps) <==> FitThroughout(b, ps)
    decreases |ps|
  {
    hide Keyed, LookedUp, SellCoverage, Fits, Project;
    if ps != [] {
      ProjectExactly(b, ps[0]);
      if Fits(b, ps[0]) {
        RunCoversExactly(Project(b, ps[0]), ps[1..]);
      }
    }
  }

  // ---- the size the projection finds ----

  lemma {:induction false} FoundTracked(ks: seq<string>, b: Book, r: OrderResult)
    requires Keyed(b) && Truthy(r.orderId) && forall k :: k in ks ==> k in b.orders.items
    ensures r.orderId.value in ks && b.orders.items[r.orderId.value].In(r.conditionId, r.tokenId)
            && b.orders.items[r.orderId.value].orderId == r.orderId ==>
              var o := b.orders.items[r.orderId.value];
              FoundSize(ks, b.orders.items, r) == NonZeroOr(o.remaining, NonZeroOr(o.size, Some(0.0))).value
    ensures r.orderId.value !in ks ==> FoundSize(ks, b.orders.items, r) == 0.0
  {
    if ks != [] {
      FoundTracked(ks[1..], b, r);
      assert OrderKey(b.orders.items[ks[0]]) == ks[0];
    }
  }

  /** No sell order counts negatively. */
  ghost predicate NonNegative(b: Book) {
    forall k, c, t :: k in b.orders.items ==> Weight(b.orders.items[k], c, t, Sell) >= 0.0
  }

  lemma {:induction false} WeightFits(ks: seq<string>, b: Book, k: string, c: string, t: string)
    requires NonNegative(b)
    ensures SumOver(ks, b.orders.items, c, t, Sell) >= 0.0
    ensures k in ks && k in b.orders.items ==> Weight(b.orders.items[k], c, t, Sell) <= SumOver(ks, b.orders.items, c, t, Sell)
  {
    if ks != [] {
      WeightFits(ks[1..], b, k, c, t);
    }
  }

  // ---- what a caller can rely on ----

  /** Whatever is stored under this key, if anything, belongs to this market token. */
  ghost predicate OwnKey(b: Book, k: string, c: string, t: string) {
    k in b.orders.items ==> b.orders.items[k].In(c, t)
  }

  /** A tracked sell order of this market token that still has something left. */
  ghost predicate TrackedSell(b: Book, id: string, c: string, t: string) {
    id in b.orders.items && b.orders.items[id].orderId == Some(id) && Weight(b.orders.items[id], c, t, Sell) > 0.0
  }

  /** Where nothing is stored, the older position the caller falls back on counts the open sells right. */
  ghost predicate FallbackFits(b: Book, c: string, t: string, fallback: Option<Position>) {
    b.PositionOf(c, t).None? && fallback.Some? ==> fallback.value.openSell == Total(b, c, t, Sell)
  }

  /** What the exchange and the caller are relied on for: the older snapshot behind a submit or a cancel
      still counts the other open sells right, a result names a tracked order with something left or a new
      one, a full fill leaves nothing, a replacement stays in its market. */
  ghost predicate Sane(b: Book, p: Projection) {
    match p
    case Submitted(seen, i, _) =>
      && OwnKey(b, IntentOrderId(i), i.conditionId, i.tokenId) && (i.side.Sell? ==> i.size >= 0.0)
      && SeenOpen(seen, i) ==
           Total(b, i.conditionId, i.tokenId, Sell) - WeightAt(b, IntentOrderId(i), i.conditionId, i.tokenId, Sell)
    case Resulted(r, i, fallback, _) =>
      && FallbackFits(b, r.conditionId, r.tokenId, fallback) && Truthy(r.orderId)
      && (TrackedSell(b, r.orderId.value, r.conditionId, r.tokenId) || r.orderId.value !in b.orders.items)
      && (r.status == FullFill ==> r.remaining <= 0.0)
    case CancelConfirmed(c, t, held, id, side, target) =>
      && OwnKey(b, id, c, t)
      && (match held
          case Some(q) => CancelledPosition(q, side, target).openSell == Total(b, c, t, Sell) - WeightAt(b, id, c, t, Sell)
          case None => b.PositionOf(c, t).None? || WeightAt(b, id, c, t, Sell) == 0.0)
    case ReplaceResulted(slug, source, r) =>
      && r.conditionId == source.conditionId && r.tokenId == source.tokenId
      && OwnKey(b, OrderKey(source), source.conditionId, source.tokenId)
      && OwnKey(b, OrderKey(ReplacementOrder(slug, source, r)), source.conditionId, source.tokenId)
    case ReconcileReplaced(x, r, _, fallback) =>
      && FallbackFits(b, x.conditionId, x.tokenId, fallback) && TrackedSell(b, x.orderId, x.conditionId, x.tokenId)
      && (NewOrderId(x, r) == x.orderId || NewOrderId(x, r) !in b.orders.items)
      && (r.Some? ==> r.value.side != Some(Buy)) && (!NewRests(r) ==> NewRemaining(x, r) <= 0.0)
  }

  /** Planned on the store as it is, with exact figures and a fresh id, a submit goes wrong only where sells
      are open without a position: the new one is started from nothing. */
  lemma CurrentSubmitExactly(b: Book, i: Intent, slug: Option<string>)
    requires Keyed(b) && ExactSell(b, i.conditionId, i.tokenId) && IntentOrderId(i) !in b.orders.items
    ensures ExactSell(ApplySubmittedIntent(b, b, i, slug), i.conditionId, i.tokenId) <==>
            b.PositionOf(i.conditionId, i.tokenId).Some? || Total(b, i.conditionId, i.tokenId, Sell) == 0.0
  {
    hide Total, IntentOrderId, ApplySubmittedIntent;
    SubmitExactly(b, b, i, slug);
  }

  lemma OwnKeyWeighsNothingElsewhere(b: Book, k: string, c: string, t: string, d: string, u: string)
    requires OwnKey(b, k, c, t) && (c, t) != (d, u)
    ensures WeightAt(b, k, d, u, Sell) == 0.0
  {}

  lemma TrackedIsOwn(b: Book, id: string, c: string, t: string)
    requires TrackedSell(b, id, c, t) || id !in b.orders.items
    ensures OwnKey(b, id, c, t)
  {}

  lemma SubmitIsFit(b: Book, p: Projection, c: string, t: string)
    requires Keyed(b) && Sane(b, p) && p.Submitted?
    ensures FitsAt(b, p, c, t)
  {
    hide Total, WeightAt, OwnKey, IntentOrderId, SeenOpen, Asked;
    if (c, t) != Token(p) {
      OwnKeyWeighsNothingElsewhere(b, IntentOrderId(p.i), p.i.conditionId, p.i.tokenId, c, t);
    }
  }

  /** A tracked order with something left is found at exactly its weight, and weighs no more than the sum. */
  lemma TrackedFound(b: Book, r: OrderResult)
    requires Keyed(b) && NonNegative(b) && Truthy(r.orderId)
    requires TrackedSell(b, r.orderId.value, r.conditionId, r.tokenId) || r.orderId.value !in b.orders.items
    ensures ExistingSize(b, r) == WeightAt(b, r.orderId.value, r.conditionId, r.tokenId, Sell) <= Total(b, r.conditionId, r.tokenId, Sell)
  {
    hide OrderKey, SumOver;
    FoundTracked(b.orders.order, b, r);
    WeightFits(b.orders.order, b, r.orderId.value, r.conditionId, r.tokenId);
  }

  lemma ResultIsFit(b: Book, p: Projection, c: string, t: string)
    requires p.Resulted? && Keyed(b) && NonNegative(b) && ExactSell(b, p.r.conditionId, p.r.tokenId) && Sane(b, p)
    ensures FitsAt(b, p, c, t)
  {
    hide Total, Keyed, NonNegative, ExistingSize, TrackedSell;
    var r := p.r;
    TrackedFound(b, r);
    assert SellOrderId(r, p.i) == r.orderId.value;
    if (c, t) != Token(p) {
      TrackedIsOwn(b, r.orderId.value, r.conditionId, r.tokenId);
      OwnKeyWeighsNothingElsewhere(b, r.orderId.value, r.conditionId, r.tokenId, c, t);
    }
  }

  lemma CancelIsFit(b: Book, p: Projection, c: string, t: string)
    requires p.CancelConfirmed? && Sane(b, p)
    ensures FitsAt(b, p, c, t)
  {
    hide Total, WeightAt, OwnKey, CancelledPosition;
    if (c, t) != Token(p) {
      OwnKeyWeighsNothingElsewhere(b, p.id, p.c, p.t, c, t);
    }
  }

  lemma ReplaceIsFit(b: Book, p: Projection, c: string, t: string)
    requires p.ReplaceResulted? && Sane(b, p)
    ensures FitsAt(b, p, c, t)
  {
    hide Total, OrderKey, ReplacementRests, WeightAt, OwnKey;
    var source, o := p.source, ReplacementOrder(p.marketSlug, p.source, p.r);
    if (c, t) != Token(p) {
      OwnKeyWeighsNothingElsewhere(b, OrderKey(source), source.conditionId, source.tokenId, c, t);
      RemovedOwnKey(b, OrderKey(source), OrderKey(o), source.conditionId, source.tokenId);
      OwnKeyWeighsNothingElsewhere(b.RemoveOrder(OrderKey(source)), OrderKey(o), source.conditionId, source.tokenId, c, t);
      assert Weight(o, c, t, Sell) == 0.0;
    }
  }

  lemma RemovedOwnKey(b: Book, gone: string, k: string, c: string, t: string)
    requires OwnKey(b, k, c, t)
    ensures OwnKey(b.RemoveOrder(gone), k, c, t)
  {}

  lemma SaneReplacement(b: Book, x: Replacement, r: Option<OrderResult>, older: Option<Order>, fallback: Option<Position>)
    requires Keyed(b) && Sane(b, ReconcileReplaced(x, r, older, fallback))
    ensures Replaced(b, x, older) == Some(b.orders.items[x.orderId]) && NewSide(x, r, Replaced(b, x, older)) == Sell
    ensures forall c, t :: TakenOut(b, x, r, Sell, c, t) == WeightAt(b, x.orderId, c, t, Sell)
  {
    hide Total, SumOver, NewRemaining, FallbackFits;
    OrderKeyTruthy(b.orders.items[x.orderId]);
    FindOpenTracked(b.orders.order, b, x.conditionId, x.tokenId, x.orderId);
    assert Truthy(Some(NewOrderId(x, r)));
    assert OrderKey(NewOrder(x, r, Sell)) == NewOrderId(x, r);
  }

  lemma ReconcileIsFit(b: Book, p: Projection, c: string, t: string)
    requires p.ReconcileReplaced? && Keyed(b) && NonNegative(b) && ExactSell(b, p.x.conditionId, p.x.tokenId) && Sane(b, p)
    ensures FitsAt(b, p, c, t)
  {
    hide Keyed, NonNegative, SumOver, Replaced, NewSide, NewRests, NewRemaining, TakenOut, NewOrderId;
    var x, r := p.x, p.answer;
    SaneReplacement(b, x, r, p.older, p.fallback);
    if (c, t) == Token(p) {
      assert Keyed(b);
      WeightFits(b.orders.order, b, x.orderId, c, t);
      InOrder(b, x.orderId);
      NewRemainingNonNegative(x, r);
    } else {
      TrackedIsOwn(b, x.orderId, x.conditionId, x.tokenId);
      OwnKeyWeighsNothingElsewhere(b, x.orderId, x.conditionId, x.tokenId, c, t);
    }
  }

  lemma InOrder(b: Book, k: string)
    requires Keyed(b)
    ensures k in b.orders.order <==> k in b.orders.items
  {}

  lemma NewRemainingNonNegative(x: Replacement, r: Option<OrderResult>)
    ensures NewRemaining(x, r) >= 0.0
  {}

  /** Sane projections fit. */
  lemma SaneIsFit(b: Book, p: Projection)
    requires Keyed(b) && NonNegative(b) && SellCoverage(b) && Sane(b, p)
    ensures Fits(b, p)
  {
    hide Keyed, NonNegative, ExactSell, Sane, FitsAt;
    var (c, t) := Token(p);
    assert ExactSell(b, c, t);
    forall d, u ensures FitsAt(b, p, d, u) {
      match p
      case Submitted(_, _, _) => SubmitIsFit(b, p, d, u);
      case Resulted(_, _, _, _) => ResultIsFit(b, p, d, u);
      case CancelConfirmed(_, _, _, _, _, _) => CancelIsFit(b, p, d, u);
      case ReplaceResulted(_, _, _) => ReplaceIsFit(b, p, d, u);
      case ReconcileReplaced(_, _, _, _) => ReconcileIsFit(b, p, d, u);
    }
  }

  // ---- the records stay well formed ----

  lemma UpsertKeepsNonNegative(b: Book, o: Order)
    requires NonNegative(b) && (o.side == Sell ==> o.remaining.Some? && o.remaining.value >= 0.0)
    ensures NonNegative(b.UpsertOrder(o))
  {
    forall k, c, t | k in b.UpsertOrder(o).orders.items
      ensures Weight(b.UpsertOrder(o).orders.items[k], c, t, Sell) >= 0.0
    {
      if k in b.orders.items {
        assert Weight(b.orders.items[k], c, t, Sell) >= 0.0;
      }
    }
  }

  lemma RemoveKeepsNonNegative(b: Book, k: string)
    requires NonNegative(b)
    ensures NonNegative(b.RemoveOrder(k))
  {
    forall j, c, t | j in b.RemoveOrder(k).orders.items
      ensures Weight(b.RemoveOrder(k).orders.items[j], c, t, Sell) >= 0.0
    {
      assert Weight(b.orders.items[j], c, t, Sell) >= 0.0;
    }
  }

  /** Every projection ends in one of these tables of orders. */
  lemma SameOrdersKeepNonNegative(a: Book, b: Book)
    requires a.orders == b.orders && NonNegative(a)
    ensures NonNegative(b)
  {
    forall k, c, t | k in b.orders.items ensures Weight(b.orders.items[k], c, t, Sell) >= 0.0 {
      assert Weight(a.orders.items[k], c, t, Sell) >= 0.0;
    }
  }

  lemma ReconcileStoredNonNegative(b: Book, x: Replacement, r: Option<OrderResult>, side: Side)
    requires NonNegative(b)
    ensures NonNegative(ReconcileStored(b, x, r, side))
  {
    hide NonNegative, OrderKey;
    NewRemainingNonNegative(x, r);
    RemoveKeepsNonNegative(b, x.orderId);
    RemoveKeepsNonNegative(b.RemoveOrder(x.orderId), NewOrderId(x, r));
    UpsertKeepsNonNegative(b.RemoveOrder(x.orderId), NewOrder(x, r, side));
  }

  lemma ReplaceStoredNonNegative(b: Book, slug: string, source: Order, r: OrderResult)
    requires NonNegative(b)
    ensures NonNegative(ReplaceStored(b, slug, source, r))
  {
    hide NonNegative, OrderKey;
    RemoveKeepsNonNegative(b, OrderKey(source));
    UpsertKeepsNonNegative(b.RemoveOrder(OrderKey(source)), ReplacementOrder(slug, source, r));
  }

  lemma ResultStoredNonNegative(b: Book, p: Position, r: OrderResult, i: Intent)
    requires NonNegative(b)
    ensures NonNegative(SellResultStored(b, p, r, i))
  {
    hide NonNegative, OrderKey, SellOrderId;
    UpsertKeepsNonNegative(b, SellResultOrder(p, r, i));
    RemoveKeepsNonNegative(b, SellOrderId(r, i));
  }

  lemma ReplaceEndsInStored(b: Book, slug: string, source: Order, r: OrderResult)
    requires Keyed(b)
    ensures ApplyReplaceResult(b, slug, source, r).orders == ReplaceStored(b, slug, source, r).orders
  {
    hide Keyed, ApplyReplaceResult, ReplaceStored, ReplaceChange, ExactSell, Holds;
    ReplaceAt(b, slug, source, r, "", "");
  }

  lemma ProjectKeepsNonNegative(b: Book, p: Projection)
    requires Keyed(b) && NonNegative(b) && (p.Submitted? && p.i.side.Sell? ==> p.i.size >= 0.0)
    ensures NonNegative(Project(b, p))
  {
    hide Keyed, NonNegative, OrderKey, Total, SellResultStored, SellResultPosition, ReplaceStored, ApplyReplaceResult,
         ReconcileStored, ReplacedPosition, Replaced, CancelledPosition, SubmittedPosition;
    match p
    case Submitted(_, i, _) =>
      UpsertKeepsNonNegative(b, SubmittedOrder(i));
      SameOrdersKeepNonNegative(b.UpsertOrder(SubmittedOrder(i)), Project(b, p));
    case Resulted(r, i, fallback, _) =>
      var found := FoundPosition(b, r.conditionId, r.tokenId, fallback);
      if ResultActs(r) && found.Some? {
        ResultStoredNonNegative(b, found.value, r, i);
        SameOrdersKeepNonNegative(SellResultStored(b, found.value, r, i), Project(b, p));
      }
    case CancelConfirmed(_, _, _, id, _, _) =>
      RemoveKeepsNonNegative(b, id);
      SameOrdersKeepNonNegative(b.RemoveOrder(id), Project(b, p));
    case ReplaceResulted(slug, source, r) =>
      ReplaceStoredNonNegative(b, slug, source, r);
      ReplaceEndsInStored(b, slug, source, r);
      SameOrdersKeepNonNegative(ReplaceStored(b, slug, source, r), Project(b, p));
    case ReconcileReplaced(x, r, older, _) =>
      var side := NewSide(x, r, Replaced(b, x, older));
      ReconcileStoredNonNegative(b, x, r, side);
      if ReplaceAccepted(r) {
        SameOrdersKeepNonNegative(ReconcileStored(b, x, r, side), Project(b, p));
      }
  }

  ghost predicate SaneThroughout(b: Book, ps: seq<Projection>)
    decreases |ps|
  {
    ps != [] ==> LookedUp(ps[0]) && Sane(b, ps[0]) && SaneThroughout(Project(b, ps[0]), ps[1..])
  }

  /** Over any sane run of submits, results, cancels and replacements, every position's open-sell
      figure stays the sum over its open sell orders. */
  lemma {:induction false} RunKeepsCoverage(b: Book, ps: seq<Projection>)
    requires Keyed(b) && NonNegative(b) && SellCoverage(b) && SaneThroughout(b, ps)
    ensures CoveredThroughout(b, ps) && SellCoverage(ProjectAll(b, ps))
    decreases |ps|
  {
    hide Keyed, NonNegative, SellCoverage, Fits, Project, LookedUp;
    if ps != [] {
      SaneIsFit(b, ps[0]);
      ProjectExactly(b, ps[0]);
      SaneSize(b, ps[0]);
      ProjectKeepsNonNegative(b, ps[0]);
      RunKeepsCoverage(Project(b, ps[0]), ps[1..]);
    }
  }

  lemma SaneSize(b: Book, p: Projection)
    requires Sane(b, p)
    ensures p.Submitted? && p.i.side.Sell? ==> p.i.size >= 0.0
  {}

  /** One accepted or refused replacement that stays in its market keeps every position exact. */
  lemma ReplaceKeepsCoverage(b: Book, slug: string, source: Order, r: OrderResult)
    requires Keyed(b) && SellCoverage(b) && Sane(b, ReplaceResulted(slug, source, r))
    ensures SellCoverage(ApplyReplaceResult(b, slug, source, r))
  {
    hide Keyed, Sane, FitsAt, ApplyReplaceResult, SellCoverage;
    var p := ReplaceResulted(slug, source, r);
    forall c, t ensures FitsAt(b, p, c, t) {
      ReplaceIsFit(b, p, c, t);
    }
    ProjectExactly(b, p);
  }

  // ---- where the sums part ----

  /** A result for a tracked order with nothing remaining is charged the order's original size, so the
      cache loses what other orders still hold. */
  lemma ZeroRemainingBreaksCoverage(b: Book, r: OrderResult, i: Intent, fallback: Option<Position>, now: int)
    requires Keyed(b) && r.status in {PartialFill, Resting} && Truthy(r.orderId) && r.orderId.value in b.orders.items
    requires var o := b.orders.items[r.orderId.value];
      && o.In(r.conditionId, r.tokenId) && o.orderId == r.orderId && o.side == Sell
      && o.remaining == Some(0.0) && o.size.Some? && o.size.value > 0.0
    requires b.PositionOf(r.conditionId, r.tokenId).Some? && ExactSell(b, r.conditionId, r.tokenId)
    ensures ExactSell(ApplySellResult(b, r, i, fallback, now), r.conditionId, r.tokenId) <==>
            Total(b, r.conditionId, r.tokenId, Sell) == 0.0
  {
    FoundTracked(b.orders.order, b, r);
    SellResultExactly(b, r, i, fallback, now);
  }

  /** A full fill of a tracked order that still reports shares remaining leaves them in the cache for good. */
  lemma FullFillWithRemainderBreaksCoverage(b: Book, r: OrderResult, i: Intent, fallback: Option<Position>, now: int)
    requires Keyed(b) && NonNegative(b) && r.status == FullFill && r.remaining > 0.0
    requires Truthy(r.orderId) && TrackedSell(b, r.orderId.value, r.conditionId, r.tokenId)
    requires b.PositionOf(r.conditionId, r.tokenId).Some? && ExactSell(b, r.conditionId, r.tokenId)
    ensures !ExactSell(ApplySellResult(b, r, i, fallback, now), r.conditionId, r.tokenId)
  {
    FoundTracked(b.orders.order, b, r);
    WeightFits(b.orders.order, b, r.orderId.value, r.conditionId, r.tokenId);
    SellResultExactly(b, r, i, fallback, now);
  }

  // ---- what no projection touches ----

  /** Positions stay, with their shares, cost, confirmed shares and authority fields. */
  ghost predicate SameHoldings(a: Book, b: Book, c: string, t: string) {
    a.PositionOf(c, t).Some? ==>
      && b.PositionOf(c, t).Some?
      && SameHeld(a.PositionOf(c, t).value, b.PositionOf(c, t).value)
      && a.PositionOf(c, t).value.authority == b.PositionOf(c, t).value.authority
  }

  /** A written position holds what the stored one holds, and carries its authority fields or none. */
  predicate Carries(b: Book, p: Position) {
    var stored := b.PositionOf(p.conditionId, p.tokenId);
    stored.Some? ==> SameHeld(stored.value, p) && (p.authority == NO_AUTHORITY || p.authority == stored.value.authority)
  }

  lemma WriteKeepsHoldings(b: Book, stored: Book, p: Option<Position>, c: string, t: string)
    requires stored.positions == b.positions && (p.Some? ==> Carries(b, p.value))
    ensures SameHoldings(b, Write(stored, p), c, t)
  {}

  /** The position the caller saw is the stored one; where none is stored, the older one it falls back
      on is of the market token at hand. */
  predicate OwnFallback(b: Book, p: Projection) {
    match p
    case Submitted(seen, i, _) => seen.PositionOf(i.conditionId, i.tokenId) == b.PositionOf(i.conditionId, i.tokenId)
    case CancelConfirmed(c, t, held, _, _, _) => held == b.PositionOf(c, t)
    case Resulted(r, _, f, _) => f.Some? ==> Of(f.value, r.conditionId, r.tokenId)
    case ReconcileReplaced(x, _, _, f) => f.Some? ==> Of(f.value, x.conditionId, x.tokenId)
    case _ => true
  }

  lemma SubmitKeepsHoldings(b: Book, seen: Book, i: Intent, slug: Option<string>, c: string, t: string)
    requires Keyed(b) && seen.PositionOf(i.conditionId, i.tokenId) == b.PositionOf(i.conditionId, i.tokenId)
    ensures SameHoldings(b, ApplySubmittedIntent(b, seen, i, slug), c, t)
  {
    hide SumOver, OrderKey, SubmittedOrder, SameHoldings;
    WriteKeepsHoldings(b, b.UpsertOrder(SubmittedOrder(i)), Some(SubmittedPosition(seen, i, slug)), c, t);
  }

  lemma ResultKeepsHoldings(b: Book, r: OrderResult, i: Intent, fallback: Option<Position>, now: int, c: string, t: string)
    requires Keyed(b) && OwnFallback(b, Resulted(r, i, fallback, now))
    ensures SameHoldings(b, ApplySellResult(b, r, i, fallback, now), c, t)
  {
    hide SumOver, OrderKey, SellResultOrder, SellOrderId, ExistingSize, SellResultRemaining;
    var found := FoundPosition(b, r.conditionId, r.tokenId, fallback);
    if ResultActs(r) && found.Some? {
      hide SameHoldings;
      WriteKeepsHoldings(b, SellResultStored(b, found.value, r, i), Some(SellResultPosition(b, found.value, r, i, now)), c, t);
    }
  }

  lemma CancelKeepsHoldings(b: Book, held: Option<Position>, id: string, side: Option<Side>, target: Option<real>,
                            c: string, t: string)
    requires Keyed(b) && (held.Some? ==> held == b.PositionOf(held.value.conditionId, held.value.tokenId))
    ensures SameHoldings(b, ApplyCancel(b, held, id, side, target), c, t)
  {
    hide SameHoldings;
    var p := if held.None? then None else Some(CancelledPosition(held.value, side, target));
    WriteKeepsHoldings(b, b.RemoveOrder(id), p, c, t);
  }

  /** A cancel writes back the position its caller saw: what is held survives exactly when that snapshot
      was still right about it, so a fill booked while the cancel was awaited is lost. */
  lemma CancelKeepsHoldingsExactly(b: Book, held: Position, id: string, side: Option<Side>, target: Option<real>)
    requires Keyed(b) && b.PositionOf(held.conditionId, held.tokenId).Some?
    ensures var n := ApplyCancel(b, Some(held), id, side, target).PositionOf(held.conditionId, held.tokenId);
      var p := b.PositionOf(held.conditionId, held.tokenId).value;
      && n.Some?
      && (n.value.shares == p.shares <==> held.shares == p.shares)
      && (n.value.cost == p.cost <==> held.cost == p.cost)
      && (SameHeld(p, n.value) <==> SameHeld(p, held))
  {
    hide Keyed, Merge;
    WrittenPosition(b.RemoveOrder(id), CancelledPosition(held, side, target), held.conditionId, held.tokenId);
  }

  lemma ReplaceKeepsHoldings(b: Book, slug: string, source: Order, r: OrderResult, c: string, t: string)
    requires Keyed(b)
    ensures SameHoldings(b, ApplyReplaceResult(b, slug, source, r), c, t)
  {
    hide SumOver, OrderKey, ReplaceStored, RefreshCoverage, ReplaceChange, SameHoldings, StatusName;
    var stored := ReplaceStored(b, slug, source, r);
    var newSlug, last := OrElse(source.marketSlug, Some(slug)), OrElse(r.orderId, Some(r.traceId));
    var (d, u, status) := (source.conditionId, source.tokenId, StatusName(r.status));
    ReplaceStoredTotal(b, slug, source, r, c, t);
    RefreshWrites(stored, d, u, newSlug, last, r.tradeId, status, r.ackAt);
    WriteKeepsHoldings(b, stored, Refreshed(stored, d, u, newSlug, last, r.tradeId, status, r.ackAt), c, t);
  }

  lemma ReconcileKeepsHoldings(b: Book, x: Replacement, r: Option<OrderResult>, older: Option<Order>,
                               fallback: Option<Position>, c: string, t: string)
    requires Keyed(b) && OwnFallback(b, ReconcileReplaced(x, r, older, fallback))
    ensures SameHoldings(b, ApplyReconcileReplace(b, x, r, older, fallback), c, t)
  {
    hide SumOver, OrderKey, OpenSize, OpenShares, NewOrder, NewRests, NewSide, Replaced, NewRemaining, Merge;
    if ReplaceAccepted(r) {
      hide SameHoldings;
      var found, replaced := FoundPosition(b, x.conditionId, x.tokenId, fallback), Replaced(b, x, older);
      var side := NewSide(x, r, replaced);
      var p := if found.None? then None else Some(ReplacedPosition(found.value, side, replaced, NewRemaining(x, r)));
      WriteKeepsHoldings(b, ReconcileStored(b, x, r, side), p, c, t);
    }
  }

  /** Whatever the results say, projections move only the open figures: what is held, what it cost and
      what the settlement source reported about it survive any of them. */
  lemma ProjectKeepsHoldings(b: Book, p: Projection, c: string, t: string)
    requires Keyed(b) && OwnFallback(b, p)
    ensures SameHoldings(b, Project(b, p), c, t)
  {
    hide SameHoldings;
    match p
    case Submitted(seen, i, slug) => SubmitKeepsHoldings(b, seen, i, slug, c, t);
    case Resulted(r, i, fallback, now) => ResultKeepsHoldings(b, r, i, fallback, now, c, t);
    case CancelConfirmed(_, _, held, id, side, target) =>
      assert held.Some? ==> Of(held.value, p.c, p.t);
      CancelKeepsHoldings(b, held, id, side, target, c, t);
    case ReplaceResulted(slug, source, r) => ReplaceKeepsHoldings(b, slug, source, r, c, t);
    case ReconcileReplaced(x, r, older, fallback) => ReconcileKeepsHoldings(b, x, r, older, fallback, c, t);
  }

  /** A submitted buy adds money over price to the cached open-buy figure but leaves an order without a
      share size, which the rebuild counts as nothing: the cache stays the sum only if nothing is bought. */
  lemma SubmittedBuyExactly(b: Book, i: Intent, slug: Option<string>)
    requires Keyed(b) && i.side == Buy && IntentOrderId(i) !in b.orders.items
    requires b.PositionOf(i.conditionId, i.tokenId).Some?
    requires b.PositionOf(i.conditionId, i.tokenId).value.openBuy == Total(b, i.conditionId, i.tokenId, Buy)
    ensures var n := ApplySubmittedIntent(b, b, i, slug);
      var exact := n.PositionOf(i.conditionId, i.tokenId).value.openBuy == Total(n, i.conditionId, i.tokenId, Buy);
      exact <==> BuyShares(i) == 0.0
  {
    SubmittedOrderKey(i);
    UpsertOrderTotal(b, SubmittedOrder(i), i.conditionId, i.tokenId, Buy);
  }
}

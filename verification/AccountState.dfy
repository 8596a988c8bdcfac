/** Orders, positions, market pauses and the account store that holds them. */
module AccountModel {
  import opened Prelude

  datatype Side = Buy | Sell

  datatype OrderStatus =
    | Created | Signed | Submitted | CancelRequested | Matched | PartiallyFilled
    | NoFill | Live | Cancelled | Rejected | Failed

  datatype Order = Order(
    conditionId: string,
    tokenId: string,
    side: Side,
    status: OrderStatus,
    marketSlug: Option<string>,
    amountUsdc: Option<real>,
    size: Option<real>,
    filled: real,
    remaining: Option<real>,
    orderId: Option<string>,
    idempotencyKey: Option<string>
  ) {
    predicate Open() {
      status in {Created, Signed, Submitted, CancelRequested, Live, Matched, PartiallyFilled}
    }

    predicate In(c: string, t: string) { conditionId == c && tokenId == t }
  }

  /** The fields only the settlement data source knows. */
  datatype Authority = Authority(
    avgPrice: Option<real>, initialValue: Option<real>, currentValue: Option<real>, cashPnl: Option<real>,
    percentPnl: Option<real>, realizedPnl: Option<real>, percentRealizedPnl: Option<real>, curPrice: Option<real>,
    redeemable: Option<bool>, openedAt: Option<int>
  )

  const NO_AUTHORITY := Authority(None, None, None, None, None, None, None, None, None, None)

  datatype Position = Position(
    conditionId: string,
    tokenId: string,
    shares: real,
    cost: real,
    marketSlug: Option<string>,
    openBuy: real,
    openSell: real,
    pendingBuy: real,
    confirmed: real,
    lastOrderId: Option<string>,
    lastTradeId: Option<string>,
    confirmationStatus: string,
    updatedAt: Option<int>,
    authority: Authority
  )

  function Newer<T>(incoming: Option<T>, previous: Option<T>): Option<T> {
    if incoming.Some? then incoming else previous
  }

  /** A sparse update keeps the authority fields it does not carry. */
  function Merge(previous: Option<Position>, incoming: Position): Position {
    if previous.None? then incoming
    else
      var p, i := previous.value.authority, incoming.authority;
      incoming.(
        marketSlug := OrElse(incoming.marketSlug, previous.value.marketSlug),
        authority := Authority(
          Newer(i.avgPrice, p.avgPrice), Newer(i.initialValue, p.initialValue), Newer(i.currentValue, p.currentValue),
          Newer(i.cashPnl, p.cashPnl), Newer(i.percentPnl, p.percentPnl), Newer(i.realizedPnl, p.realizedPnl),
          Newer(i.percentRealizedPnl, p.percentRealizedPnl), Newer(i.curPrice, p.curPrice),
          Newer(i.redeemable, p.redeemable), Newer(i.openedAt, p.openedAt)))
  }

  function SideText(s: Side): string { if s.Buy? then "BUY" else "SELL" }

  function StatusText(s: OrderStatus): string {
    match s
    case Created => "created"
    case Signed => "signed"
    case Submitted => "submitted"
    case CancelRequested => "cancel_requested"
    case Matched => "matched"
    case PartiallyFilled => "partially_filled"
    case NoFill => "no_fill"
    case Live => "live"
    case Cancelled => "cancelled"
    case Rejected => "rejected"
    case Failed => "failed"
  }

  /** The key an order is stored under. */
  function OrderKey(o: Order): string {
    OrElse(o.orderId, OrElse(o.idempotencyKey,
      Some(o.conditionId + ":" + o.tokenId + ":" + SideText(o.side) + ":" + StatusText(o.status)))).value
  }

  type PositionKey = (string, string)

  /** The two tables the coverage figures live in. */
  datatype Book = Book(positions: Dict<PositionKey, Position>, orders: Dict<string, Order>) {
    function PositionOf(c: string, t: string): Option<Position> { positions.Get((c, t)) }

    function UpsertPosition(p: Position): Book {
      var k := (p.conditionId, p.tokenId);
      this.(positions := positions.Put(k, Merge(positions.Get(k), p)))
    }

    function UpsertOrder(o: Order): Book { this.(orders := orders.Put(OrderKey(o), o)) }

    function RemoveOrder(k: string): Book { this.(orders := orders.Drop(k)) }
  }

  /** Every record sits under its own key. */
  ghost predicate Keyed(b: Book) {
    && b.positions.Valid() && b.orders.Valid()
    && (forall k :: k in b.positions.items ==> (b.positions.items[k].conditionId, b.positions.items[k].tokenId) == k)
    && (forall k :: k in b.orders.items ==> OrderKey(b.orders.items[k]) == k)
  }

  /** A sparse update, one that carries no authority field, leaves them all as they were; the opening time,
      said to be written once, survives exactly the updates that carry none or the same. */
  lemma MergeKeepsAuthority(previous: Position, incoming: Position)
    ensures incoming.authority == NO_AUTHORITY ==> Merge(Some(previous), incoming).authority == previous.authority
    ensures previous.authority.openedAt.Some? ==>
              (Merge(Some(previous), incoming).authority.openedAt == previous.authority.openedAt <==>
               incoming.authority.openedAt.None? || incoming.authority.openedAt == previous.authority.openedAt)
  {}

  // ---- market pauses ----

  datatype PauseSource = Manual | Reconcile | Risk

  datatype MarketPause = MarketPause(conditionId: string, reason: string, source: PauseSource, recoverable: bool)

  predicate RecoverableReason(reason: string) {
    reason == "market_not_tradable" || reason == "missing_primary_outcome"
  }

  function DefaultSource(reason: string): PauseSource {
    if reason == "manual_pause" then Manual
    else if reason == "unexpected_resting_order" then Risk
    else Reconcile
  }

  /** Unless told otherwise, only a reconcile pause for a passing reason is recoverable. */
  function BuildPause(c: string, reason: string, source: Option<PauseSource>, recoverable: Option<bool>): MarketPause {
    var s := source.GetOr(DefaultSource(reason));
    MarketPause(c, reason, s, recoverable.GetOr(s == Reconcile && RecoverableReason(reason)))
  }

  /** Left to itself a pause comes from the operator, the risk check or reconciling by its reason, and is passing for two
      reasons only; a named source makes it passing only if reconciling is that source; and what is said outright holds. */
  lemma PauseInFields(c: string, reason: string, source: Option<PauseSource>, recoverable: Option<bool>)
    ensures var p := BuildPause(c, reason, source, recoverable);
      && p.conditionId == c && p.reason == reason
      && (source.Some? ==> p.source == source.value)
      && (source.None? ==>
            && (p.source == Manual <==> reason == "manual_pause")
            && (p.source == Risk <==> reason == "unexpected_resting_order"))
      && (recoverable.Some? ==> p.recoverable == recoverable.value)
      && (recoverable.None? ==>
            (p.recoverable <==> p.source == Reconcile && reason in ["market_not_tradable", "missing_primary_outcome"]))
  {}

  /** A sparse update leaves the slug it does not carry; all other plain fields are the update's. */
  lemma MergeInFields(previous: Position, incoming: Position)
    ensures var n := Merge(Some(previous), incoming);
      && n.marketSlug == (if Truthy(incoming.marketSlug) then incoming.marketSlug else previous.marketSlug)
      && n.(marketSlug := None, authority := NO_AUTHORITY) == incoming.(marketSlug := None, authority := NO_AUTHORITY)
      && (incoming.authority.curPrice.Some? ==> n.authority.curPrice == incoming.authority.curPrice)
      && Merge(None, incoming) == incoming
  {}

  /** An order is stored under its id, else its idempotency key, else market token, side and status; so an amended order
      with an id stays where it was, whatever else changed. */
  lemma KeyInFields(o: Order)
    ensures Truthy(o.orderId) ==> OrderKey(o) == o.orderId.value
    ensures !Truthy(o.orderId) && Truthy(o.idempotencyKey) ==> OrderKey(o) == o.idempotencyKey.value
    ensures !Truthy(o.orderId) && !Truthy(o.idempotencyKey) ==>
              OrderKey(o) == o.conditionId + ":" + o.tokenId + ":" + SideText(o.side) + ":" + StatusText(o.status)
  {
    assert |o.conditionId + ":" + o.tokenId + ":" + SideText(o.side) + ":" + StatusText(o.status)| >= 3;
  }
}

/** The account store: every write edits its tables and publishes a new snapshot of them. */
module AccountState {
  import opened Prelude
  import opened AccountModel

  const ALLOWANCE_CAP := 1000000000000000000.0

  class AccountStateStore {
    var positions: Dict<PositionKey, Position>
    var orders: Dict<string, Order>
    var pauses: Dict<string, MarketPause>
    var balance: real
    var allowance: real
    var connected: bool
    var allowNewEntries: bool
    var lastReconcile: Option<int>

    function View(): Book
      reads this
    {
      Book(positions, orders)
    }

    /** New entries are allowed only while the user stream is up and a reconcile has completed since. */
    ghost predicate Valid()
      reads this
    {
      && Keyed(View())
      && pauses.Valid() && (forall c :: c in pauses.items ==> pauses.items[c].conditionId == c)
      && (allowNewEntries ==> connected && lastReconcile.Some?)
    }

    constructor ()
      ensures Valid() && View() == Book(EmptyDict(), EmptyDict()) && pauses == EmptyDict()
      ensures !allowNewEntries && !connected && lastReconcile == None
    {
      positions, orders, pauses := EmptyDict(), EmptyDict(), EmptyDict();
      balance, allowance := 0.0, 0.0;
      connected, allowNewEntries, lastReconcile := false, false, None;
    }

    method UpsertPosition(p: Position)
      requires Valid()
      modifies this`positions
      ensures Valid() && View() == old(View()).UpsertPosition(p)
    {
      var k := (p.conditionId, p.tokenId);
      positions := positions.Put(k, Merge(positions.Get(k), p));
    }

    method UpsertOrder(o: Order)
      requires Valid()
      modifies this`orders
      ensures Valid() && View() == old(View()).UpsertOrder(o)
    {
      orders := orders.Put(OrderKey(o), o);
    }

    method RemoveOrder(k: string)
      requires Valid()
      modifies this`orders
      ensures Valid() && View() == old(View()).RemoveOrder(k)
    {
      orders := orders.Drop(k);
    }

    method UpdateBalances(newBalance: Option<real>, newAllowance: Option<real>)
      requires Valid()
      modifies this`balance, this`allowance
      ensures Valid()
      ensures balance == newBalance.GetOr(old(balance))
      ensures newAllowance.None? ==> allowance == old(allowance)
      ensures newAllowance.Some? ==> allowance == MinReal(newAllowance.value, ALLOWANCE_CAP)
    {
      if newBalance.Some? {
        balance := newBalance.value;
      }
      if newAllowance.Some? {
        allowance := if newAllowance.value > ALLOWANCE_CAP then ALLOWANCE_CAP else newAllowance.value;
      }
    }

    predicate EntryGateCanOpen()
      reads this`connected, this`lastReconcile
    {
      connected && lastReconcile.Some?
    }

    /** Losing the stream forgets the last reconcile, so coming back does not reopen the gate. */
    method MarkUserStream(up: bool)
      requires Valid()
      modifies this`connected, this`lastReconcile, this`allowNewEntries
      ensures Valid() && connected == up
      ensures lastReconcile == if up then old(lastReconcile) else None
      ensures allowNewEntries == (up && old(lastReconcile).Some?)
    {
      connected := up;
      if up {
        allowNewEntries := EntryGateCanOpen();
      } else {
        lastReconcile := None;
        allowNewEntries := false;
      }
    }

    method SetAllowNewEntries(allowed: bool)
      requires Valid()
      modifies this`allowNewEntries
      ensures Valid() && allowNewEntries == (allowed && connected && lastReconcile.Some?)
    {
      allowNewEntries := allowed && EntryGateCanOpen();
    }

    method MarkReconciled(at: int)
      requires Valid()
      modifies this`lastReconcile, this`allowNewEntries
      ensures Valid() && lastReconcile == Some(at) && allowNewEntries == connected
    {
      lastReconcile := Some(at);
      allowNewEntries := EntryGateCanOpen();
    }

    method PauseMarket(c: string, reason: string, source: Option<PauseSource>, recoverable: Option<bool>)
      requires Valid()
      modifies this`pauses
      ensures Valid() && pauses == old(pauses).Put(c, BuildPause(c, reason, source, recoverable))
    {
      pauses := pauses.Put(c, BuildPause(c, reason, source, recoverable));
    }

    method ResumeMarket(c: string)
      requires Valid()
      modifies this`pauses
      ensures Valid() && pauses == old(pauses).Drop(c)
    {
      pauses := pauses.Drop(c);
    }
  }
}

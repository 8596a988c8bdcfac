/** The gates every order passes before it is sent: market state, total budget, funds, order type. */
module RiskModel {
  import opened Prelude
  import opened AccountModel
  import opened Markets
  import opened Fees

  datatype OrderType = Fak | Gtc

  datatype OrderIntent =
    | BuyIntent(conditionId: string, tokenId: string, price: real, amount: real, orderType: OrderType, postOnly: bool)
    | SellIntent(conditionId: string, tokenId: string, price: real, size: real, orderType: OrderType, postOnly: bool)

  /** What the caller says about the market, where it says anything. */
  datatype Hints = Hints(
    active: Option<bool>, open: Option<bool>, clob: Option<bool>,
    resolved: Option<bool>, cancelled: Option<bool>, archived: Option<bool>)

  datatype Flags = Flags(active: bool, open: bool, clob: bool, resolved: bool, cancelled: bool, archived: bool)

  datatype Request = Request(
    intent: OrderIntent,
    market: Option<Market>,
    position: Option<Position>,
    hints: Hints,
    balance: Option<real>,
    allowance: Option<real>,
    invested: Option<real>,
    bankroll: Option<real>
  )

  datatype RiskCheck = RiskCheck(name: string, passed: bool, reason: string, field: string, action: string)

  datatype RiskDecision = RiskDecision(
    passed: bool, reason: string, failedField: Option<string>, action: string, checks: seq<RiskCheck>)

  datatype Outcome = Decided(decision: RiskDecision) | Threw(message: string)

  /** What a gate leaves: the checks it logged, and whether the next gate is asked. */
  datatype Verdict = Open | Blocked(check: RiskCheck) | Error(message: string)
  datatype Gate = Gate(checks: seq<RiskCheck>, verdict: Verdict)

  function Passing(name: string, field: string): RiskCheck { RiskCheck(name, true, "", field, "") }

  function Fail(before: seq<RiskCheck>, name: string, reason: string, field: string, action: string): Gate {
    var check := RiskCheck(name, false, reason, field, action);
    Gate(before + [check], Blocked(check))
  }

  // ---- 1. the market's state ----

  function ResolveFlags(market: Option<Market>, h: Hints): Flags {
    var active := if market.Some? && h.active.None? then Some(market.value.status == Eligible) else h.active;
    var open := if market.Some? && h.open.None? then Some(market.value.status == Eligible) else h.open;
    var resolved := if market.Some? && h.resolved.None? then Some(market.value.status == Resolved) else h.resolved;
    var unknown := market.None? && active.None? && open.None?;
    Flags(
      if unknown then false else active.GetOr(true),
      if unknown then false else open.GetOr(true),
      if unknown then h.clob.GetOr(false) else h.clob.GetOr(true),
      resolved.GetOr(false), h.cancelled.GetOr(false), h.archived.GetOr(false))
  }

  /** A sale the position covers may go ahead on a market that is still only a candidate. */
  predicate CandidateReducingSell(i: OrderIntent, market: Option<Market>, position: Option<Position>) {
    && i.SellIntent? && market.Some? && market.value.status == Candidate
    && position.Some? && position.value.conditionId == i.conditionId && position.value.tokenId == i.tokenId
    && i.size > 0.0 && position.value.shares >= i.size
  }

  datatype FlagGate = FlagGate(name: string, passed: bool, reason: string, field: string, action: string)

  function FlagGates(f: Flags, exempt: bool): seq<FlagGate> {
    [FlagGate("market_active_gate", f.active || exempt, "market_not_active", "market.active", "refresh_snapshot"),
     FlagGate("market_open_gate", f.open || exempt, "market_not_open", "market.open", "refresh_snapshot"),
     FlagGate("clob_gate", f.clob, "clob_disabled", "market.clob_enabled", "refresh_snapshot"),
     FlagGate("resolved_gate", !f.resolved, "market_resolved", "market.resolved", "reject"),
     FlagGate("cancelled_gate", !f.cancelled, "market_cancelled", "market.cancelled", "reject"),
     FlagGate("archived_gate", !f.archived, "market_archived", "market.archived", "reject")]
  }

  /** Each flag is logged; the first that fails is logged once more, with its reason, and ends the review. */
  function RunFlagGates(gates: seq<FlagGate>): Gate {
    if gates == [] then Gate([], Open)
    else
      var g := gates[0];
      var logged := RiskCheck(g.name, g.passed, "", g.field, "");
      if !g.passed then Fail([logged], g.name, g.reason, g.field, g.action)
      else
        var rest := RunFlagGates(gates[1..]);
        Gate([logged] + rest.checks, rest.verdict)
  }

  function StatusGate(market: Option<Market>, exempt: bool): Gate {
    if market.None? || market.value.status == Eligible then Gate([], Open)
    else if exempt then Gate([Passing("market_status_gate", "market.trading_status")], Open)
    else Fail([], "market_status_gate", "market_not_active", "market.trading_status", "reject")
  }

  function Then(g: Gate, next: Gate): Gate {
    if g.verdict.Open? then Gate(g.checks + next.checks, next.verdict) else g
  }

  function MarketGate(r: Request): Gate {
    var exempt := CandidateReducingSell(r.intent, r.market, r.position);
    Then(RunFlagGates(FlagGates(ResolveFlags(r.market, r.hints), exempt)), StatusGate(r.market, exempt))
  }

  // ---- 2. the budget ----

  function Notional(i: OrderIntent): real {
    if i.BuyIntent? then i.amount else i.price * i.size
  }

  function PortfolioTotal(invested: Option<real>): real {
    if invested.None? || invested.value < 0.0 then 0.0 else invested.value
  }

  function BankrollGate(r: Request): Gate {
    if r.intent.SellIntent? then Gate([], Open)
    else if r.bankroll.None? || r.bankroll.value <= 0.0 then
      Fail([], "bankroll_gate", "bankroll_non_positive", "bankroll_usdc", "fund_or_reduce_budget")
    else if PortfolioTotal(r.invested) + Notional(r.intent) > r.bankroll.value then
      Fail([], "bankroll_total_gate", "bankroll_overspent", "portfolio.total_invested_usdc", "reduce_size")
    else Gate([Passing("bankroll_total_gate", "portfolio.total_invested_usdc")], Open)
  }

  // ---- 3. the funds ----

  predicate PostOnlyMakerBuy(i: OrderIntent) { i.BuyIntent? && i.orderType == Gtc && i.postOnly }

  /** The fee a buy would pay as a taker, or the error the fee calculation raises. */
  function EstimatedFee(i: OrderIntent, market: Option<Market>): FeeEstimate {
    if market.None? || i.SellIntent? || PostOnlyMakerBuy(i) then Estimated(0.0)
    else
      var rate := TakerRate(market.value);
      if rate.None? || rate.value <= 0 || i.price <= 0.0 then Estimated(0.0)
      else
        match TradeFee(i.price, i.amount / i.price, BuySide, rate, market.value.feesEnabled, Taker)
        case Quoted(q) => Estimated(q.usdc)
        case Raised(message) => Unestimated(message)
  }

  datatype FeeEstimate = Estimated(fee: real) | Unestimated(message: string)

  function FundsGate(r: Request): Gate {
    if r.intent.SellIntent? then Gate([], Open)
    else
      match EstimatedFee(r.intent, r.market)
      case Unestimated(message) => Gate([], Error(message))
      case Estimated(fee) =>
        var required := Notional(r.intent) + fee;
        if r.balance.Some? && required > r.balance.value then
          Fail([], "balance_gate", "balance_insufficient", "account.balance_usdc", "reduce_size")
        else if r.allowance.Some? && required > r.allowance.value then
          Fail([], "allowance_gate", "allowance_insufficient", "account.allowance_usdc", "approve_or_reduce")
        else Gate([Passing("balance_gate", "account.balance_usdc")], Open)
  }

  // ---- 4. the order type ----

  function OrderTypeGate(i: OrderIntent): Gate {
    if i.SellIntent? then Gate([], Open)
    else if i.orderType == Fak || (i.orderType == Gtc && i.postOnly) then
      Gate([Passing("buy_order_type_gate", "intent.order_type")], Open)
    else Fail([], "buy_order_type_gate", "resting_buy_not_allowed", "intent.order_type", "use_fak_or_post_only_gtc")
  }

  function AllGates(r: Request): Gate {
    Then(Then(Then(MarketGate(r), BankrollGate(r)), FundsGate(r)), OrderTypeGate(r.intent))
  }

  function Conclude(g: Gate): Outcome {
    match g.verdict
    case Open => Decided(RiskDecision(true, "passed", None, "submit", g.checks))
    case Blocked(c) => Decided(RiskDecision(false, c.reason, Some(c.field), c.action, g.checks))
    case Error(message) => Threw(message)
  }

  function Review(r: Request): Outcome { Conclude(AllGates(r)) }

  // ---- what passing means ----

  predicate MarketPermits(r: Request) {
    var f := ResolveFlags(r.market, r.hints);
    var exempt := CandidateReducingSell(r.intent, r.market, r.position);
    && (exempt || (f.active && f.open && (r.market.Some? ==> r.market.value.status == Eligible)))
    && f.clob && !f.resolved && !f.cancelled && !f.archived
  }

  predicate BudgetPermits(r: Request) {
    r.intent.BuyIntent? ==>
      r.bankroll.Some? && r.bankroll.value > 0.0 && PortfolioTotal(r.invested) + r.intent.amount <= r.bankroll.value
  }

  predicate FundsPermit(r: Request) {
    r.intent.BuyIntent? ==>
      var e := EstimatedFee(r.intent, r.market);
      && e.Estimated?
      && (r.balance.Some? ==> r.intent.amount + e.fee <= r.balance.value)
      && (r.allowance.Some? ==> r.intent.amount + e.fee <= r.allowance.value)
  }

  predicate TypePermits(i: OrderIntent) {
    i.BuyIntent? ==> i.orderType == Fak || i.postOnly
  }

  predicate AllPassed(gates: seq<FlagGate>) { forall k :: 0 <= k < |gates| ==> gates[k].passed }

  lemma {:induction false} FlagGatesOpenExactly(gates: seq<FlagGate>)
    ensures RunFlagGates(gates).verdict.Open? <==> AllPassed(gates)
    ensures !RunFlagGates(gates).verdict.Error?
  {
    if gates != [] {
      FlagGatesOpenExactly(gates[1..]);
      assert forall k :: 0 < k < |gates| ==> gates[k] == gates[1..][k - 1];
      assert AllPassed(gates) <==> gates[0].passed && AllPassed(gates[1..]);
    }
  }

  lemma SixFlags(f: Flags, exempt: bool)
    ensures AllPassed(FlagGates(f, exempt)) <==>
            (f.active || exempt) && (f.open || exempt) && f.clob && !f.resolved && !f.cancelled && !f.archived
  {
    var g := FlagGates(f, exempt);
    assert g[0].passed == (f.active || exempt) && g[1].passed == (f.open || exempt) && g[2].passed == f.clob
        && g[3].passed == !f.resolved && g[4].passed == !f.cancelled && g[5].passed == !f.archived;
  }

  lemma MarketGateOpenExactly(r: Request)
    ensures MarketGate(r).verdict.Open? <==> MarketPermits(r)
    ensures !MarketGate(r).verdict.Error?
  {
    var exempt := CandidateReducingSell(r.intent, r.market, r.position);
    var f := ResolveFlags(r.market, r.hints);
    FlagGatesOpenExactly(FlagGates(f, exempt));
    SixFlags(f, exempt);
    hide FlagGates, RunFlagGates, ResolveFlags;
  }

  lemma MoneyGatesOpenExactly(r: Request)
    ensures BankrollGate(r).verdict.Open? <==> BudgetPermits(r)
    ensures FundsGate(r).verdict.Open? <==> FundsPermit(r)
    ensures OrderTypeGate(r.intent).verdict.Open? <==> TypePermits(r.intent)
  {
    hide EstimatedFee;
  }

  /** An order passes if and only if the market, the budget, the funds and the order type all permit it. */
  lemma PassesExactly(r: Request)
    ensures (Review(r).Decided? && Review(r).decision.passed) <==>
            MarketPermits(r) && BudgetPermits(r) && FundsPermit(r) && TypePermits(r.intent)
  {
    MarketGateOpenExactly(r);
    MoneyGatesOpenExactly(r);
    hide MarketGate, BankrollGate, FundsGate, OrderTypeGate, MarketPermits, BudgetPermits, FundsPermit, TypePermits;
  }

  // ---- what the log says ----

  /** Only the last logged gate may have failed, and it is the one the verdict names. */
  ghost predicate Explained(g: Gate) {
    && (!g.verdict.Blocked? ==> forall k :: 0 <= k < |g.checks| ==> g.checks[k].passed)
    && (g.verdict.Blocked? ==>
          && |g.checks| > 0 && g.checks[|g.checks| - 1] == g.verdict.check && !g.verdict.check.passed
          && forall k :: 0 <= k < |g.checks| && !g.checks[k].passed ==> g.checks[k].name == g.verdict.check.name)
  }

  lemma ThenExplained(g: Gate, next: Gate)
    requires Explained(g) && Explained(next)
    ensures Explained(Then(g, next))
  {}

  lemma {:induction false} FlagGatesExplained(gates: seq<FlagGate>)
    ensures Explained(RunFlagGates(gates))
  {
    if gates != [] {
      FlagGatesExplained(gates[1..]);
    }
  }

  lemma MarketGateExplained(r: Request)
    ensures Explained(MarketGate(r))
  {
    var exempt := CandidateReducingSell(r.intent, r.market, r.position);
    FlagGatesExplained(FlagGates(ResolveFlags(r.market, r.hints), exempt));
    hide RunFlagGates, FlagGates, ResolveFlags, CandidateReducingSell;
    assert Explained(StatusGate(r.market, exempt));
    ThenExplained(RunFlagGates(FlagGates(ResolveFlags(r.market, r.hints), exempt)), StatusGate(r.market, exempt));
  }

  lemma BankrollExplained(r: Request)
    ensures Explained(BankrollGate(r))
  {
    hide PortfolioTotal, Notional;
  }

  lemma FundsExplained(r: Request)
    ensures Explained(FundsGate(r))
  {
    hide EstimatedFee, Notional;
  }

  lemma OtherGatesExplained(r: Request)
    ensures Explained(BankrollGate(r)) && Explained(FundsGate(r)) && Explained(OrderTypeGate(r.intent))
  {
    BankrollExplained(r);
    FundsExplained(r);
    hide BankrollGate, FundsGate;
  }

  lemma AllGatesExplained(r: Request)
    ensures Explained(AllGates(r))
  {
    MarketGateExplained(r);
    OtherGatesExplained(r);
    hide MarketGate, BankrollGate, FundsGate, OrderTypeGate, Explained, Then;
    ThenExplained(MarketGate(r), BankrollGate(r));
    ThenExplained(Then(MarketGate(r), BankrollGate(r)), FundsGate(r));
    ThenExplained(Then(Then(MarketGate(r), BankrollGate(r)), FundsGate(r)), OrderTypeGate(r.intent));
  }

  /** A rejection carries the reason and the field of the last check in its log; every other check of
      another name passed. An approval logged only passing checks. */
  lemma DecisionExplained(r: Request)
    requires Review(r).Decided?
    ensures var d := Review(r).decision;
      && (d.passed ==> forall k :: 0 <= k < |d.checks| ==> d.checks[k].passed)
      && (!d.passed ==>
            && |d.checks| > 0
            && var last := d.checks[|d.checks| - 1];
               && !last.passed && d.reason == last.reason && d.failedField == Some(last.field)
               && forall k :: 0 <= k < |d.checks| && !d.checks[k].passed ==> d.checks[k].name == last.name)
  {
    AllGatesExplained(r);
    hide AllGates;
  }

  /** What a rejection for this reason means. */
  ghost predicate ReasonHolds(r: Request, reason: string) {
    var f := ResolveFlags(r.market, r.hints);
    if reason == "market_not_active" then
      (r.market.Some? && r.market.value.status != Eligible) || r.hints.active == Some(false) || (r.market.None? && !f.active)
    else if reason == "market_not_open" then
      (r.market.Some? && r.market.value.status != Eligible) || r.hints.open == Some(false)
    else if reason == "clob_disabled" then r.hints.clob == Some(false)
    else if reason == "market_resolved" then
      r.hints.resolved == Some(true) || (r.hints.resolved == None && r.market.Some? && r.market.value.status == Resolved)
    else if reason == "market_cancelled" then r.hints.cancelled == Some(true)
    else if reason == "market_archived" then r.hints.archived == Some(true)
    else if reason == "bankroll_non_positive" then r.intent.BuyIntent? && r.bankroll.GetOr(0.0) <= 0.0
    else if reason == "bankroll_overspent" then
      r.intent.BuyIntent? && r.bankroll.Some? && MaxReal(r.invested.GetOr(0.0), 0.0) + r.intent.amount > r.bankroll.value
    else if reason == "balance_insufficient" then
      r.intent.BuyIntent? && EstimatedFee(r.intent, r.market).Estimated? && r.balance.Some?
      && r.intent.amount + EstimatedFee(r.intent, r.market).fee > r.balance.value
    else if reason == "allowance_insufficient" then
      r.intent.BuyIntent? && EstimatedFee(r.intent, r.market).Estimated? && r.allowance.Some?
      && r.intent.amount + EstimatedFee(r.intent, r.market).fee > r.allowance.value
      && (r.balance.Some? ==> r.intent.amount + EstimatedFee(r.intent, r.market).fee <= r.balance.value)
    else reason == "resting_buy_not_allowed" && r.intent.BuyIntent? && r.intent.orderType == Gtc && !r.intent.postOnly
  }

  /** The field a rejection for this reason names, and what it suggests. */
  predicate FieldFits(reason: string, field: string, action: string) {
    if reason == "market_not_active" then (field, action) in [("market.active", "refresh_snapshot"), ("market.trading_status", "reject")]
    else if reason == "market_not_open" then (field, action) == ("market.open", "refresh_snapshot")
    else if reason == "clob_disabled" then (field, action) == ("market.clob_enabled", "refresh_snapshot")
    else if reason == "market_resolved" then (field, action) == ("market.resolved", "reject")
    else if reason == "market_cancelled" then (field, action) == ("market.cancelled", "reject")
    else if reason == "market_archived" then (field, action) == ("market.archived", "reject")
    else if reason == "bankroll_non_positive" then (field, action) == ("bankroll_usdc", "fund_or_reduce_budget")
    else if reason == "bankroll_overspent" then (field, action) == ("portfolio.total_invested_usdc", "reduce_size")
    else if reason == "balance_insufficient" then (field, action) == ("account.balance_usdc", "reduce_size")
    else if reason == "allowance_insufficient" then (field, action) == ("account.allowance_usdc", "approve_or_reduce")
    else (field, action) == ("intent.order_type", "use_fak_or_post_only_gtc")
  }

  ghost predicate Meant(r: Request, v: Verdict) {
    v.Blocked? ==> ReasonHolds(r, v.check.reason) && FieldFits(v.check.reason, v.check.field, v.check.action)
  }

  lemma {:induction false} FirstFlagFails(gates: seq<FlagGate>)
    ensures var v := RunFlagGates(gates).verdict;
      v.Blocked? ==>
        exists k :: 0 <= k < |gates| && !gates[k].passed && (forall j :: 0 <= j < k ==> gates[j].passed)
                    && v.check == RiskCheck(gates[k].name, false, gates[k].reason, gates[k].field, gates[k].action)
  {
    if gates != [] {
      FirstFlagFails(gates[1..]);
      var v := RunFlagGates(gates).verdict;
      if gates[0].passed && v.Blocked? {
        var k :| 0 <= k < |gates[1..]| && !gates[1..][k].passed && (forall j :: 0 <= j < k ==> gates[1..][j].passed)
                 && v.check == RiskCheck(gates[1..][k].name, false, gates[1..][k].reason, gates[1..][k].field, gates[1..][k].action);
        assert gates[k + 1] == gates[1..][k];
        assert forall j :: 0 < j < k + 1 ==> gates[j] == gates[1..][j - 1];
      }
    }
  }

  lemma FlagMeant(r: Request, k: nat)
    requires var gates := FlagGates(ResolveFlags(r.market, r.hints), CandidateReducingSell(r.intent, r.market, r.position));
      k < 6 && !gates[k].passed && forall j :: 0 <= j < k ==> gates[j].passed
    ensures var g := FlagGates(ResolveFlags(r.market, r.hints), CandidateReducingSell(r.intent, r.market, r.position))[k];
      ReasonHolds(r, g.reason) && FieldFits(g.reason, g.field, g.action)
  {
    var gates := FlagGates(ResolveFlags(r.market, r.hints), CandidateReducingSell(r.intent, r.market, r.position));
    hide EstimatedFee, MaxReal;
    if k > 0 {
      assert gates[0].passed;
    }
    assert r.market.None? ==> !CandidateReducingSell(r.intent, r.market, r.position);
  }

  lemma MarketGateMeant(r: Request)
    ensures Meant(r, MarketGate(r).verdict)
  {
    var exempt := CandidateReducingSell(r.intent, r.market, r.position);
    var gates := FlagGates(ResolveFlags(r.market, r.hints), exempt);
    var flags := RunFlagGates(gates);
    FirstFlagFails(gates);
    if flags.verdict.Blocked? {
      var k :| 0 <= k < |gates| && !gates[k].passed && (forall j :: 0 <= j < k ==> gates[j].passed)
               && flags.verdict.check == RiskCheck(gates[k].name, false, gates[k].reason, gates[k].field, gates[k].action);
      FlagMeant(r, k);
    }
    hide FlagGates, RunFlagGates, ResolveFlags, CandidateReducingSell;
  }

  lemma BankrollMeant(r: Request)
    ensures Meant(r, BankrollGate(r).verdict)
  {
    hide EstimatedFee, ResolveFlags;
  }

  lemma FundsMeant(r: Request)
    ensures Meant(r, FundsGate(r).verdict)
  {
    hide EstimatedFee, ResolveFlags, MaxReal;
  }

  lemma OrderTypeMeant(r: Request)
    ensures Meant(r, OrderTypeGate(r.intent).verdict)
  {
    hide EstimatedFee, ResolveFlags, MaxReal;
  }

  /** A rejection's reason is true of the request and its field and advice belong to it; and the gates are asked in order:
      money only where the market permits, funds only within the budget, the order type last. */
  lemma RejectionIsMeant(r: Request)
    requires Review(r).Decided? && !Review(r).decision.passed
    ensures var d := Review(r).decision;
      && ReasonHolds(r, d.reason) && d.failedField.Some? && FieldFits(d.reason, d.failedField.value, d.action)
      && (d.reason in ["bankroll_non_positive", "bankroll_overspent"] ==> MarketPermits(r))
      && (d.reason in ["balance_insufficient", "allowance_insufficient"] ==> MarketPermits(r) && BudgetPermits(r))
      && (d.reason == "resting_buy_not_allowed" ==> MarketPermits(r) && BudgetPermits(r) && FundsPermit(r))
  {
    MarketGateMeant(r);
    BankrollMeant(r);
    FundsMeant(r);
    OrderTypeMeant(r);
    MarketGateOpenExactly(r);
    MoneyGatesOpenExactly(r);
    VerdictReasons(r);
    hide MarketGate, BankrollGate, FundsGate, OrderTypeGate, MarketPermits, BudgetPermits, FundsPermit, TypePermits, ReasonHolds,
         FieldFits;
  }

  lemma SixChecks(g: seq<FlagGate>)
    requires |g| == 6 && AllPassed(g)
    ensures RunFlagGates(g) ==
            Gate([Passing(g[0].name, g[0].field), Passing(g[1].name, g[1].field), Passing(g[2].name, g[2].field),
                  Passing(g[3].name, g[3].field), Passing(g[4].name, g[4].field), Passing(g[5].name, g[5].field)], Open)
  {
    assert g[0].passed && g[1].passed && g[2].passed && g[3].passed && g[4].passed && g[5].passed;
    var g1, g2, g3, g4, g5 := g[1..], g[2..], g[3..], g[4..], g[5..];
    assert g1[1..] == g2 && g2[1..] == g3 && g3[1..] == g4 && g4[1..] == g5 && g5[1..] == [];
    assert RunFlagGates(g5).checks == [Passing(g[5].name, g[5].field)];
    assert RunFlagGates(g4).checks == [Passing(g[4].name, g[4].field)] + RunFlagGates(g5).checks;
    assert RunFlagGates(g3).checks == [Passing(g[3].name, g[3].field)] + RunFlagGates(g4).checks;
    assert RunFlagGates(g2).checks == [Passing(g[2].name, g[2].field)] + RunFlagGates(g3).checks;
    assert RunFlagGates(g1).checks == [Passing(g[1].name, g[1].field)] + RunFlagGates(g2).checks;
  }

  lemma EligibleMarketLog(r: Request)
    requires r.market.Some? && r.market.value.status == Eligible && MarketPermits(r)
    ensures MarketGate(r) ==
            Gate([Passing("market_active_gate", "market.active"), Passing("market_open_gate", "market.open"),
                  Passing("clob_gate", "market.clob_enabled"), Passing("resolved_gate", "market.resolved"),
                  Passing("cancelled_gate", "market.cancelled"), Passing("archived_gate", "market.archived")], Open)
  {
    var exempt := CandidateReducingSell(r.intent, r.market, r.position);
    var gates := FlagGates(ResolveFlags(r.market, r.hints), exempt);
    SixFlags(ResolveFlags(r.market, r.hints), exempt);
    SixChecks(gates);
    hide RunFlagGates, ResolveFlags, CandidateReducingSell;
  }

  /** A buy that passes on an eligible market was asked nine things, in this order, and told to submit. */
  lemma PassedBuyLog(r: Request)
    requires r.intent.BuyIntent? && r.market.Some? && r.market.value.status == Eligible
    requires Review(r).Decided? && Review(r).decision.passed
    ensures var d := Review(r).decision;
      && d.reason == "passed" && d.failedField == None && d.action == "submit"
      && d.checks == [Passing("market_active_gate", "market.active"), Passing("market_open_gate", "market.open"),
                      Passing("clob_gate", "market.clob_enabled"), Passing("resolved_gate", "market.resolved"),
                      Passing("cancelled_gate", "market.cancelled"), Passing("archived_gate", "market.archived"),
                      Passing("bankroll_total_gate", "portfolio.total_invested_usdc"),
                      Passing("balance_gate", "account.balance_usdc"), Passing("buy_order_type_gate", "intent.order_type")]
  {
    PassesExactly(r);
    EligibleMarketLog(r);
    MoneyLogs(r);
    hide MarketGate, BankrollGate, FundsGate, OrderTypeGate, MarketPermits, BudgetPermits, FundsPermit, TypePermits;
  }

  lemma MoneyLogs(r: Request)
    requires r.intent.BuyIntent? && BudgetPermits(r) && FundsPermit(r) && TypePermits(r.intent)
    ensures BankrollGate(r) == Gate([Passing("bankroll_total_gate", "portfolio.total_invested_usdc")], Open)
    ensures FundsGate(r) == Gate([Passing("balance_gate", "account.balance_usdc")], Open)
    ensures OrderTypeGate(r.intent) == Gate([Passing("buy_order_type_gate", "intent.order_type")], Open)
  {
    hide EstimatedFee;
  }

  /** A market recorded as resolved is refused for that even where the caller says it is active and open. */
  lemma ResolvedMarketSaysSo(r: Request)
    requires r.market.Some? && r.market.value.status == Resolved && r.hints.resolved == None
    requires r.hints.active == r.hints.open == Some(true) && r.hints.clob != Some(false)
    ensures Review(r).Decided? && !Review(r).decision.passed && Review(r).decision.reason == "market_resolved"
  {
    var gates := FlagGates(ResolveFlags(r.market, r.hints), CandidateReducingSell(r.intent, r.market, r.position));
    assert gates[0].passed && gates[1].passed && gates[2].passed && !gates[3].passed && gates[3].reason == "market_resolved";
    assert gates[1..][1..][1..][0] == gates[3] && gates[1..][0] == gates[1] && gates[1..][1..][0] == gates[2];
    hide BankrollGate, FundsGate, OrderTypeGate, FlagGates, ResolveFlags;
    FirstFlagFails(gates);
    FlagGatesOpenExactly(gates);
    assert !AllPassed(gates);
    hide RunFlagGates;
  }

  lemma VerdictReasons(r: Request)
    ensures MarketGate(r).verdict.Blocked? ==>
              MarketGate(r).verdict.check.reason in
                ["market_not_active", "market_not_open", "clob_disabled", "market_resolved", "market_cancelled", "market_archived"]
    ensures BankrollGate(r).verdict.Blocked? ==> BankrollGate(r).verdict.check.reason in ["bankroll_non_positive", "bankroll_overspent"]
    ensures FundsGate(r).verdict.Blocked? ==> FundsGate(r).verdict.check.reason in ["balance_insufficient", "allowance_insufficient"]
    ensures OrderTypeGate(r.intent).verdict.Blocked? ==> OrderTypeGate(r.intent).verdict.check.reason == "resting_buy_not_allowed"
  {
    var gates := FlagGates(ResolveFlags(r.market, r.hints), CandidateReducingSell(r.intent, r.market, r.position));
    FirstFlagFails(gates);
    hide EstimatedFee, ResolveFlags, CandidateReducingSell, RunFlagGates;
  }

  /** Nothing the caller says about the market speaks against trading it. */
  predicate NoHintOpposes(h: Hints) {
    && h.active != Some(false) && h.open != Some(false) && h.clob != Some(false)
    && h.resolved != Some(true) && h.cancelled != Some(true) && h.archived != Some(true)
  }

  /** Whatever the caller says, a market that is not eligible lets nothing through but, while it is only a candidate,
      sales its position covers; with no market at all the caller must have vouched for it. */
  lemma OnlyEligibleMarketsTrade(r: Request)
    requires Review(r).Decided? && Review(r).decision.passed
    ensures r.market.None? ==> r.hints.active == Some(true) || r.hints.open == Some(true)
    ensures r.market.Some? ==>
              || r.market.value.status == Eligible
              || (r.market.value.status == Candidate && r.intent.SellIntent?
                  && r.position.Some? && 0.0 < r.intent.size <= r.position.value.shares)
    ensures r.hints.clob != Some(false) && r.hints.resolved != Some(true)
            && r.hints.cancelled != Some(true) && r.hints.archived != Some(true)
  {
    PassesExactly(r);
    hide Review, BudgetPermits, FundsPermit, TypePermits;
  }

  /** A buy fits the budget exactly when it and what is invested fit a positive bankroll, together and it alone. */
  lemma BudgetInFields(r: Request)
    requires r.intent.BuyIntent?
    ensures BudgetPermits(r) <==>
      && r.bankroll.Some? && 0.0 < r.bankroll.value && r.intent.amount <= r.bankroll.value
      && (r.invested.Some? ==> r.invested.value + r.intent.amount <= r.bankroll.value)
  {}

  /** On a market that is still only a candidate exactly the sales its own position covers are permitted, as long as
      nothing is said against book, resolution, cancellation or archive. */
  lemma CandidatePermitsExactly(r: Request)
    requires r.market.Some? && r.market.value.status == Candidate
    ensures MarketPermits(r) <==>
      && r.intent.SellIntent? && 0.0 < r.intent.size
      && r.position.Some? && r.position.value.conditionId == r.intent.conditionId && r.position.value.tokenId == r.intent.tokenId
      && r.intent.size <= r.position.value.shares
      && r.hints.clob != Some(false) && r.hints.resolved != Some(true) && r.hints.cancelled != Some(true)
      && r.hints.archived != Some(true)
  {}

  /** Without a market record the caller's word decides: at least one of active and open said, neither denied, and
      nothing against the rest. */
  lemma UnknownMarketPermitsExactly(r: Request)
    requires r.market.None?
    ensures MarketPermits(r) <==>
      && (r.hints.active == Some(true) || r.hints.open == Some(true)) && NoHintOpposes(r.hints)
  {}

  /** An eligible market permits every order exactly when no hint opposes. */
  lemma EligiblePermitsExactly(r: Request)
    requires r.market.Some? && r.market.value.status == Eligible
    ensures MarketPermits(r) <==> NoHintOpposes(r.hints)
  {}
}

/** The gates as the manager runs them, appending to one log. */
module Risk {
  import opened Prelude
  import opened AccountModel
  import opened Markets
  import opened RiskModel

  class CheckLog {
    var checks: seq<RiskCheck>

    constructor ()
      ensures checks == []
    {
      checks := [];
    }

    method Append(c: RiskCheck)
      modifies this
      ensures checks == old(checks) + [c]
    {
      checks := checks + [c];
    }
  }

  class RiskManager {
    constructor () {}

    method LogFailure(log: CheckLog, name: string, reason: string, field: string, action: string) returns (v: Verdict)
      modifies log
      ensures v.Blocked? && v.check == RiskCheck(name, false, reason, field, action)
      ensures log.checks == old(log.checks) + [v.check]
    {
      var check := RiskCheck(name, false, reason, field, action);
      log.Append(check);
      return Blocked(check);
    }

    method CheckFlags(gates: seq<FlagGate>, log: CheckLog) returns (v: Verdict)
      modifies log
      ensures log.checks == old(log.checks) + RunFlagGates(gates).checks && v == RunFlagGates(gates).verdict
    {
      var i := 0;
      while i < |gates|
        invariant 0 <= i <= |gates|
        invariant log.checks + RunFlagGates(gates[i..]).checks == old(log.checks) + RunFlagGates(gates).checks
        invariant RunFlagGates(gates[i..]).verdict == RunFlagGates(gates).verdict
      {
        assert gates[i..][0] == gates[i] && gates[i..][1..] == gates[i + 1..];
        var g := gates[i];
        log.Append(RiskCheck(g.name, g.passed, "", g.field, ""));
        if !g.passed {
          v := LogFailure(log, g.name, g.reason, g.field, g.action);
          return;
        }
        i := i + 1;
      }
      return Verdict.Open;
    }

    method CheckMarketState(r: Request, log: CheckLog) returns (v: Verdict)
      modifies log
      ensures log.checks == old(log.checks) + MarketGate(r).checks && v == MarketGate(r).verdict
    {
      var exempt := CandidateReducingSell(r.intent, r.market, r.position);
      v := CheckFlags(FlagGates(ResolveFlags(r.market, r.hints), exempt), log);
      if !v.Open? {
        return;
      }
      if r.market.Some? && r.market.value.status != Eligible {
        if exempt {
          log.Append(Passing("market_status_gate", "market.trading_status"));
          return Verdict.Open;
        }
        v := LogFailure(log, "market_status_gate", "market_not_active", "market.trading_status", "reject");
        return;
      }
      return Verdict.Open;
    }

    method CheckBankrollTotal(r: Request, log: CheckLog) returns (v: Verdict)
      modifies log
      ensures log.checks == old(log.checks) + BankrollGate(r).checks && v == BankrollGate(r).verdict
    {
      if r.intent.SellIntent? {
        return Verdict.Open;
      }
      if r.bankroll.None? || r.bankroll.value <= 0.0 {
        v := LogFailure(log, "bankroll_gate", "bankroll_non_positive", "bankroll_usdc", "fund_or_reduce_budget");
        return;
      }
      if PortfolioTotal(r.invested) + Notional(r.intent) > r.bankroll.value {
        v := LogFailure(log, "bankroll_total_gate", "bankroll_overspent", "portfolio.total_invested_usdc", "reduce_size");
        return;
      }
      log.Append(Passing("bankroll_total_gate", "portfolio.total_invested_usdc"));
      return Verdict.Open;
    }

    method CheckBalanceAndAllowance(r: Request, log: CheckLog) returns (v: Verdict)
      modifies log
      ensures log.checks == old(log.checks) + FundsGate(r).checks && v == FundsGate(r).verdict
    {
      if r.intent.SellIntent? {
        return Verdict.Open;
      }
      var estimate := EstimatedFee(r.intent, r.market);
      if estimate.Unestimated? {
        return Error(estimate.message);
      }
      var required := Notional(r.intent) + estimate.fee;
      if r.balance.Some? && required > r.balance.value {
        v := LogFailure(log, "balance_gate", "balance_insufficient", "account.balance_usdc", "reduce_size");
        return;
      }
      if r.allowance.Some? && required > r.allowance.value {
        v := LogFailure(log, "allowance_gate", "allowance_insufficient", "account.allowance_usdc", "approve_or_reduce");
        return;
      }
      log.Append(Passing("balance_gate", "account.balance_usdc"));
      return Verdict.Open;
    }

    method CheckBuyOrderType(i: OrderIntent, log: CheckLog) returns (v: Verdict)
      modifies log
      ensures log.checks == old(log.checks) + OrderTypeGate(i).checks && v == OrderTypeGate(i).verdict
    {
      if i.SellIntent? {
        return Verdict.Open;
      }
      if i.orderType == Fak {
        log.Append(Passing("buy_order_type_gate", "intent.order_type"));
        return Verdict.Open;
      }
      if i.orderType == Gtc && i.postOnly {
        log.Append(Passing("buy_order_type_gate", "intent.order_type"));
        return Verdict.Open;
      }
      v := LogFailure(log, "buy_order_type_gate", "resting_buy_not_allowed", "intent.order_type", "use_fak_or_post_only_gtc");
    }

    /** The decision of the four gates in order; what it says is proved of `Review`. */
    method CheckOrderIntent(r: Request) returns (outcome: Outcome)
      ensures outcome == Review(r)
    {
      hide MarketGate, BankrollGate, FundsGate, OrderTypeGate;
      var log := new CheckLog();
      var v := CheckMarketState(r, log);
      if v.Open? {
        v := CheckBankrollTotal(r, log);
        if v.Open? {
          v := CheckBalanceAndAllowance(r, log);
          if v.Open? {
            v := CheckBuyOrderType(r.intent, log);
          }
        }
      }
      return Conclude(Gate(log.checks, v));
    }
  }
}

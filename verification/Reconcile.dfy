/** Pausing and resuming markets across reconcile cycles: the plan a cycle makes for one market, the
    writes it leads to, and what a pause lives through while cycles and other callers interleave. */
module ReconcileModel {
  import opened Prelude
  import opened AccountModel
  import opened Markets

  // ---- the plan for one market ----

  /** What a cycle is told about a market: its record, and the quant answer (a pause, and perhaps a
      reason); each decision leads to one managed order or, when it yields no intent, to none. */
  datatype Answer = Answer(market: Market, quantPause: bool, quantReason: Option<string>, decisions: seq<Option<string>>)

  datatype Action =
    | ResumeTrading(pauseReason: string)
    | ManageOrder(order: string)
    | PauseTrading(pauseReason: string)

  datatype Plan = Plan(conditionId: string, pause: bool, reason: string, actions: seq<Action>)

  predicate StatusPauses(s: TradingStatus) { s in {Paused, Closed, Resolved} }

  predicate Sticky(p: Option<MarketPause>) { p.Some? && !p.value.recoverable }

  predicate PausesTrading(p: Option<MarketPause>, a: Answer) {
    StatusPauses(a.market.status) || Sticky(p) || a.quantPause
  }

  /** `market.reject_reason or default` */
  function ReasonOr(m: Market, default: string): string { OrElse(m.rejectReason, Some(default)).value }

  function PauseReason(p: Option<MarketPause>, m: Market): string {
    if m.status == Paused then ReasonOr(m, "market_paused")
    else if m.status == Closed then ReasonOr(m, "market_closed")
    else if m.status == Resolved then ReasonOr(m, "market_resolved")
    else if p.Some? then p.value.reason
    else ""
  }

  function ResolvedPauseReason(p: Option<MarketPause>, a: Answer): string {
    if Sticky(p) then p.value.reason
    else if Truthy(a.quantReason) then a.quantReason.value
    else if PausesTrading(p, a) then PauseReason(p, a.market)
    else ""
  }

  function OrderActions(decisions: seq<Option<string>>): seq<Action> {
    if decisions == [] then []
    else
      var before := OrderActions(decisions[..|decisions| - 1]);
      match decisions[|decisions| - 1]
      case None => before
      case Some(order) => before + [ManageOrder(order)]
  }

  function PlanFor(p: Option<MarketPause>, a: Answer): Plan {
    var pause := PausesTrading(p, a);
    var reason := ResolvedPauseReason(p, a);
    Plan(a.market.conditionId, pause, reason,
      (if p.Some? && !pause then [ResumeTrading(p.value.reason)] else [])
        + OrderActions(a.decisions)
        + (if pause then [PauseTrading(reason)] else []))
  }

  lemma {:induction false} OrderActionsManage(decisions: seq<Option<string>>)
    ensures forall x :: x in OrderActions(decisions) ==> x.ManageOrder?
    ensures forall o :: ManageOrder(o) in OrderActions(decisions) <==> Some(o) in decisions
  {
    if decisions != [] {
      var n := |decisions| - 1;
      OrderActionsManage(decisions[..n]);
      assert decisions == decisions[..n] + [decisions[n]];
    }
  }

  /** A plan resumes exactly a recoverable pause that nothing asks to keep, pauses exactly when the
      status, a sticky pause or the quant asks for it, and never does both. */
  lemma PlanResumesExactly(p: Option<MarketPause>, a: Answer)
    ensures var plan := PlanFor(p, a);
      && ((exists r :: ResumeTrading(r) in plan.actions) <==>
            p.Some? && p.value.recoverable && !StatusPauses(a.market.status) && !a.quantPause)
      && ((exists r :: PauseTrading(r) in plan.actions) <==> plan.pause)
      && (plan.pause <==> StatusPauses(a.market.status) || Sticky(p) || a.quantPause)
      && !((exists r :: ResumeTrading(r) in plan.actions) && (exists r :: PauseTrading(r) in plan.actions))
      && (forall o :: ManageOrder(o) in plan.actions <==> Some(o) in a.decisions)
  {
    OrderActionsManage(a.decisions);
    var plan := PlanFor(p, a);
    if p.Some? && !plan.pause {
      assert plan.actions[0] == ResumeTrading(p.value.reason);
    }
    if plan.pause {
      assert plan.actions[|plan.actions| - 1] == PauseTrading(plan.reason);
    }
  }

  /** Why a plan pauses: a lasting pause keeps its own reason; else the quant's, where it gives one; else the market's
      reject reason or its status by name; and a pause that only the quant asks for without a reason has the reason of
      the one that stands, if any. */
  lemma ReasonInFields(p: Option<MarketPause>, a: Answer)
    ensures var plan, m := PlanFor(p, a), a.market;
      && plan.conditionId == m.conditionId
      && (p.Some? && !p.value.recoverable ==> plan.pause && plan.reason == p.value.reason)
      && (p.None? || p.value.recoverable ==>
            && (Truthy(a.quantReason) ==> plan.reason == a.quantReason.value)
            && (!Truthy(a.quantReason) && plan.pause ==>
                  && (m.status in {Paused, Closed, Resolved} && Truthy(m.rejectReason) ==> plan.reason == m.rejectReason.value)
                  && (!Truthy(m.rejectReason) ==>
                        && (m.status == Paused ==> plan.reason == "market_paused")
                        && (m.status == Closed ==> plan.reason == "market_closed")
                        && (m.status == Resolved ==> plan.reason == "market_resolved"))
                  && (m.status !in {Paused, Closed, Resolved} ==> plan.reason == if p.Some? then p.value.reason else ""))
            && (!Truthy(a.quantReason) && !plan.pause ==> plan.reason == ""))
  {
    hide OrderActions;
  }

  // ---- the writes of a cycle ----

  type Pauses = Dict<string, MarketPause>

  datatype Write =
    | WritePause(c: string, reason: string)
    | Perform(c: string, action: Action)

  function WrittenReason(plan: Plan): string {
    if plan.reason != "" then plan.reason else "market_not_tradable"
  }

  /** A plan's writes: its pause, then its actions in order. */
  function WritesOf(plan: Plan): seq<Write> {
    (if plan.pause then [WritePause(plan.conditionId, WrittenReason(plan))] else [])
      + seq(|plan.actions|, i requires 0 <= i < |plan.actions| => Perform(plan.conditionId, plan.actions[i]))
  }

  function ApplyWrite(pauses: Pauses, w: Write): Pauses {
    match w
    case WritePause(c, reason) => pauses.Put(c, BuildPause(c, reason, Some(Reconcile), None))
    case Perform(c, ResumeTrading(_)) => pauses.Drop(c)
    case Perform(_, _) => pauses
  }

  function ApplyAll(pauses: Pauses, ws: seq<Write>): Pauses {
    if ws == [] then pauses else ApplyWrite(ApplyAll(pauses, ws[..|ws| - 1]), ws[|ws| - 1])
  }

  lemma ApplyAllStep(pauses: Pauses, ws: seq<Write>, n: nat)
    requires n < |ws|
    ensures ApplyAll(pauses, ws[..n + 1]) == ApplyWrite(ApplyAll(pauses, ws[..n]), ws[n])
  {
    assert ws[..n + 1][..n] == ws[..n];
  }

  lemma {:induction false} ApplyAllConcat(pauses: Pauses, a: seq<Write>, b: seq<Write>)
    ensures ApplyAll(pauses, a + b) == ApplyAll(ApplyAll(pauses, a), b)
  {
    if b == [] {
      assert a + b == a;
    } else {
      var n := |b| - 1;
      assert (a + b)[..|a + b| - 1] == a + b[..n];
      ApplyAllConcat(pauses, a, b[..n]);
    }
  }

  lemma {:induction false} OrdersConcat(a: seq<Option<string>>, b: seq<Option<string>>)
    ensures OrderActions(a + b) == OrderActions(a) + OrderActions(b)
  {
    if b == [] {
      assert a + b == a;
    } else {
      var n := |b| - 1;
      assert (a + b)[..|a + b| - 1] == a + b[..n] && (a + b)[|a + b| - 1] == b[n];
      OrdersConcat(a, b[..n]);
    }
  }

  lemma OneOrder(d: Option<string>)
    ensures OrderActions([d]) == if d.Some? then [ManageOrder(d.value)] else []
  {
    assert [d][..0] == [];
  }

  lemma SplitAt<T>(s: seq<T>, i: nat)
    requires i < |s|
    ensures s == s[..i] + ([s[i]] + s[i + 1..])
  {}

  lemma FrontPart<T>(a: seq<T>, b: seq<T>, c: seq<T>)
    ensures a + b <= a + (b + c)
  {}

  /** Each decided order is managed after the orders decided before it. */
  lemma ManagedAt(decisions: seq<Option<string>>, i: nat)
    requires i < |decisions| && decisions[i].Some?
    ensures OrderActions(decisions[..i]) + [ManageOrder(decisions[i].value)] <= OrderActions(decisions)
  {
    hide OrderActions;
    var front, one, rest := decisions[..i], [decisions[i]], decisions[i + 1..];
    SplitAt(decisions, i);
    OrdersConcat(front, one + rest);
    OrdersConcat(one, rest);
    OneOrder(decisions[i]);
    FrontPart(OrderActions(front), OrderActions(one), OrderActions(rest));
  }

  /** A plan resumes first and pauses last, and between them manages the orders one by one as they were decided. */
  lemma PlanInOrder(p: Option<MarketPause>, a: Answer, i: nat)
    requires i < |a.decisions| && a.decisions[i].Some?
    ensures var plan := PlanFor(p, a);
      var first := if p.Some? && !plan.pause then 1 else 0;
      var at := first + |OrderActions(a.decisions[..i])|;
      && (first == 1 ==> plan.actions[0] == ResumeTrading(p.value.reason))
      && at < |plan.actions| && plan.actions[at] == ManageOrder(a.decisions[i].value)
      && (plan.pause ==> at < |plan.actions| - 1 && plan.actions[|plan.actions| - 1] == PauseTrading(plan.reason))
  {
    ManagedAt(a.decisions, i);
    hide OrderActions, ResolvedPauseReason, PausesTrading;
  }

  /** A plan's writes are its pause, where it pauses, and then its actions in their order. */
  lemma WritesInOrder(plan: Plan, k: nat)
    requires k < |plan.actions|
    ensures var ws := WritesOf(plan);
      && |ws| == |plan.actions| + (if plan.pause then 1 else 0)
      && (plan.pause ==> ws[0] == WritePause(plan.conditionId, WrittenReason(plan)) && ws[k + 1] == Perform(plan.conditionId, plan.actions[k]))
      && (!plan.pause ==> ws[k] == Perform(plan.conditionId, plan.actions[k]))
  {}

  /** What a plan made from the current pause does to it when nothing comes between. */
  function AfterPlan(p: Option<MarketPause>, a: Answer): Option<MarketPause> {
    if PausesTrading(p, a) then
      Some(BuildPause(a.market.conditionId, WrittenReason(PlanFor(p, a)), Some(Reconcile), None))
    else None
  }

  lemma {:induction false} ManagedOrdersLeavePauses(pauses: Pauses, ws: seq<Write>)
    requires forall i :: 0 <= i < |ws| ==> ws[i].Perform? && !ws[i].action.ResumeTrading?
    ensures ApplyAll(pauses, ws) == pauses
  {
    if ws != [] {
      ManagedOrdersLeavePauses(pauses, ws[..|ws| - 1]);
    }
  }

  lemma OnlyTheFirstActionResumes(p: Option<MarketPause>, a: Answer, i: nat)
    requires i < |PlanFor(p, a).actions|
    ensures PlanFor(p, a).actions[i].ResumeTrading? <==> i == 0 && p.Some? && !PlanFor(p, a).pause
  {
    var plan := PlanFor(p, a);
    var orders := OrderActions(a.decisions);
    OrderActionsManage(a.decisions);
    var shift := if p.Some? && !plan.pause then 1 else 0;
    if shift <= i < shift + |orders| {
      assert plan.actions[i] == orders[i - shift];
      assert orders[i - shift] in orders;
    }
  }

  /** A plan carried out at once leaves its market paused exactly when it pauses trading - with the plan's
      reason, as a reconcile pause - and otherwise without a pause; no other market changes. */
  lemma PlanOutcome(pauses: Pauses, a: Answer, c: string)
    ensures ApplyAll(pauses, WritesOf(PlanFor(pauses.Get(a.market.conditionId), a))).Get(c) ==
            if c == a.market.conditionId then AfterPlan(pauses.Get(c), a) else pauses.Get(c)
  {
    var own := a.market.conditionId;
    var p := pauses.Get(own);
    var plan := PlanFor(p, a);
    var ws := WritesOf(plan);
    forall i | 0 <= i < |plan.actions| ensures plan.actions[i].ResumeTrading? <==> i == 0 && p.Some? && !plan.pause {
      OnlyTheFirstActionResumes(p, a, i);
    }
    if plan.pause || p.Some? {
      var head, rest := ws[..1], ws[1..];
      assert ws == head + rest;
      ApplyAllConcat(pauses, head, rest);
      assert ApplyAll(pauses, head) == ApplyWrite(pauses, ws[0]) by { assert ApplyAll(pauses, head[..0]) == pauses; }
      ManagedOrdersLeavePauses(ApplyAll(pauses, head), rest);
    } else {
      ManagedOrdersLeavePauses(pauses, ws);
    }
  }
}

/** Reconcile cycles running beside everyone else who pauses or resumes markets: a cycle plans from the
    pauses it saw at its start and carries its writes out later, one at a time. */
module ReconcileRuns {
  import opened Prelude
  import opened AccountModel
  import opened Markets
  import opened ReconcileModel

  /** `pending` are the writes of started cycles that are still to come. */
  datatype World = World(pauses: Pauses, pending: seq<Write>)

  datatype Step =
    | StartCycle(answers: seq<Answer>)
    | NextWrite(i: nat)
    | PauseMarket(c: string, reason: string, source: Option<PauseSource>, recoverable: Option<bool>)
    | ResumeMarket(c: string)   // the operator's resume, or a prune

  function CycleWrites(pauses: Pauses, answers: seq<Answer>): seq<Write> {
    if answers == [] then []
    else WritesOf(PlanFor(pauses.Get(answers[0].market.conditionId), answers[0])) + CycleWrites(pauses, answers[1..])
  }

  function Next(w: World, s: Step): World {
    match s
    case StartCycle(answers) => w.(pending := w.pending + CycleWrites(w.pauses, answers))
    case NextWrite(i) =>
      if i < |w.pending| then World(ApplyWrite(w.pauses, w.pending[i]), w.pending[..i] + w.pending[i + 1..]) else w
    case PauseMarket(c, reason, source, recoverable) =>
      w.(pauses := w.pauses.Put(c, BuildPause(c, reason, source, recoverable)))
    case ResumeMarket(c) => w.(pauses := w.pauses.Drop(c))
  }

  function Run(w: World, steps: seq<Step>): World
    decreases |steps|
  {
    if steps == [] then w else Run(Next(w, steps[0]), steps[1..])
  }

  /** Nobody outside the reconcile pauses or resumes this market. */
  ghost predicate LeftAlone(steps: seq<Step>, c: string) {
    forall i :: 0 <= i < |steps| ==>
      (steps[i].PauseMarket? ==> steps[i].c != c) && (steps[i].ResumeMarket? ==> steps[i].c != c)
  }

  /** A pause the recovery does not take for a passing one. */
  predicate Lasting(p: MarketPause) {
    !p.recoverable && p.reason != "" && !RecoverableReason(p.reason)
  }

  /** A write that neither resumes this market nor pauses it for another reason. */
  predicate Harmless(x: Write, c: string, reason: string) {
    match x
    case WritePause(d, r) => d == c ==> r == reason
    case Perform(d, action) => d == c ==> !action.ResumeTrading?
  }

  ghost predicate AllHarmless(ws: seq<Write>, c: string, reason: string) {
    forall i :: 0 <= i < |ws| ==> Harmless(ws[i], c, reason)
  }

  ghost predicate Held(w: World, c: string, reason: string) {
    && w.pauses.Get(c).Some? && Lasting(w.pauses.Get(c).value) && w.pauses.Get(c).value.reason == reason
    && AllHarmless(w.pending, c, reason)
  }

  /** Plans made while the pause lasts repeat its reason. */
  lemma PlanHarmless(p: Option<MarketPause>, a: Answer, c: string, reason: string)
    requires a.market.conditionId == c ==> p.Some? && Lasting(p.value) && p.value.reason == reason
    ensures AllHarmless(WritesOf(PlanFor(p, a)), c, reason)
  {
    var plan := PlanFor(p, a);
    forall i | 0 <= i < |plan.actions| ensures Harmless(Perform(plan.conditionId, plan.actions[i]), c, reason) {
      OnlyTheFirstActionResumes(p, a, i);
    }
  }

  lemma {:induction false} CycleHarmless(pauses: Pauses, answers: seq<Answer>, c: string, reason: string)
    requires pauses.Get(c).Some? && Lasting(pauses.Get(c).value) && pauses.Get(c).value.reason == reason
    ensures AllHarmless(CycleWrites(pauses, answers), c, reason)
  {
    if answers != [] {
      PlanHarmless(pauses.Get(answers[0].market.conditionId), answers[0], c, reason);
      CycleHarmless(pauses, answers[1..], c, reason);
    }
  }

  lemma NextHolds(w: World, s: Step, c: string, reason: string)
    requires Held(w, c, reason) && LeftAlone([s], c)
    ensures Held(Next(w, s), c, reason)
  {
    assert [s][0] == s;
    match s
    case StartCycle(answers) => CycleHarmless(w.pauses, answers, c, reason);
    case NextWrite(i) => if i < |w.pending| { assert Harmless(w.pending[i], c, reason); }
    case PauseMarket(_, _, _, _) =>
    case ResumeMarket(_) =>
  }

  /** Over any cycles with any statuses and quant answers, interleaved with anyone pausing and resuming
      other markets, a lasting pause stays, non-recoverable and with its reason. */
  lemma {:induction false} RunHolds(w: World, steps: seq<Step>, c: string, reason: string)
    requires Held(w, c, reason) && LeftAlone(steps, c)
    ensures Held(Run(w, steps), c, reason)
    decreases |steps|
  {
    if steps != [] {
      NextHolds(w, steps[0], c, reason);
      RunHolds(Next(w, steps[0]), steps[1..], c, reason);
    }
  }

  // ---- how the others are lost ----

  ghost predicate Keeps(w: World, c: string, reason: string) {
    w.pauses.Get(c).Some? && w.pauses.Get(c).value.reason == reason
  }

  /** A market back to eligible about which the quant has nothing to say. */
  function Calm(c: string): Answer {
    Answer(Market(c, "", None, [], 0.0, 0.0, None, None, None, None, None, Eligible, None), false, None, [])
  }

  lemma RunTwo(w: World, a: Step, b: Step)
    ensures Run(w, [a, b]) == Next(Next(w, a), b)
  {
    assert [a, b][1..] == [b] && [b][1..] == [];
    assert Run(Next(w, a), [b]) == Run(Next(Next(w, a), b), []);
  }

  lemma {:induction false} RunConcat(w: World, a: seq<Step>, b: seq<Step>)
    ensures Run(w, a + b) == Run(Run(w, a), b)
    decreases |a|
  {
    if a == [] {
      assert a + b == b;
    } else {
      assert (a + b)[1..] == a[1..] + b;
      RunConcat(Next(w, a[0]), a[1..], b);
    }
  }

  lemma OneCycle(w: World, c: string)
    requires w.pauses.Get(c).Some?
    ensures var p := w.pauses.Get(c).value;
      var n := Run(w, [StartCycle([Calm(c)]), NextWrite(|w.pending|)]);
      n.pauses.Get(c) ==
        if p.recoverable then None
        else Some(BuildPause(c, if p.reason != "" then p.reason else "market_not_tradable", Some(Reconcile), None))
  {
    var p := w.pauses.Get(c);
    var plan := PlanFor(p, Calm(c));
    assert OrderActions([]) == [];
    var ws := WritesOf(plan);
    assert CycleWrites(w.pauses, [Calm(c)]) == ws by {
      assert CycleWrites(w.pauses, [Calm(c)][1..]) == [];
    }
    RunTwo(w, StartCycle([Calm(c)]), NextWrite(|w.pending|));
    assert (w.pending + ws)[|w.pending|] == ws[0];
  }

  /** A pause that is not lasting loses its reason, or goes, within two cycles. */
  lemma NotLastingIsLost(w: World, c: string, reason: string) returns (steps: seq<Step>)
    requires Keeps(w, c, reason) && !Lasting(w.pauses.Get(c).value)
    ensures LeftAlone(steps, c) && !Keeps(Run(w, steps), c, reason)
  {
    var p := w.pauses.Get(c).value;
    var once := [StartCycle([Calm(c)]), NextWrite(|w.pending|)];
    OneCycle(w, c);
    if p.recoverable || reason == "" {
      return once;
    }
    var n := Run(w, once);
    var again := [StartCycle([Calm(c)]), NextWrite(|n.pending|)];
    OneCycle(n, c);
    RunConcat(w, once, again);
    return once + again;
  }

  /** Exactly which pauses survive every future in which nobody else touches the market: the lasting ones
      that no write already on its way resumes or renames. */
  lemma PauseSurvivesExactly(w: World, c: string, reason: string)
    requires Keeps(w, c, reason)
    ensures (forall steps :: LeftAlone(steps, c) ==> Keeps(Run(w, steps), c, reason)) <==>
            Lasting(w.pauses.Get(c).value) && AllHarmless(w.pending, c, reason)
  {
    if Lasting(w.pauses.Get(c).value) && AllHarmless(w.pending, c, reason) {
      forall steps | LeftAlone(steps, c) ensures Keeps(Run(w, steps), c, reason) {
        RunHolds(w, steps, c, reason);
      }
    } else if !Lasting(w.pauses.Get(c).value) {
      var steps := NotLastingIsLost(w, c, reason);
      assert LeftAlone(steps, c) && !Keeps(Run(w, steps), c, reason);
    } else {
      var i :| 0 <= i < |w.pending| && !Harmless(w.pending[i], c, reason);
      var steps := [NextWrite(i)];
      assert steps[1..] == [];
      assert Run(w, steps) == Next(w, NextWrite(i));
      assert LeftAlone(steps, c) && !Keeps(Run(w, steps), c, reason);
    }
  }

  /** The market status alone is enough for a pause that reconciling never takes back, even once the
      market is eligible again: only a reason from the passing ones could save it. */
  lemma StatusPauseLasts(p: Option<MarketPause>, a: Answer)
    requires StatusPauses(a.market.status) && !Sticky(p) && !Truthy(a.quantReason)
    ensures AfterPlan(p, a).Some?
    ensures Lasting(AfterPlan(p, a).value) <==> !(a.market.rejectReason.Some? && RecoverableReason(a.market.rejectReason.value))
  {}

  /** The operator's own pause is marked recoverable, so the next calm cycle takes it back; the pause for an
      unexpected resting order is not, and lasts. */
  lemma OperatorPauseIsTakenBack(w: World, c: string, reason: string)
    ensures var n := Next(w, PauseMarket(c, reason, Some(Manual), Some(true)));
      Run(n, [StartCycle([Calm(c)]), NextWrite(|n.pending|)]).pauses.Get(c) == None
    ensures Lasting(BuildPause(c, "unexpected_resting_order", Some(Risk), None))
  {
    OneCycle(Next(w, PauseMarket(c, reason, Some(Manual), Some(true))), c);
  }

  lemma CalmCycleResumes(pauses: Pauses, c: string)
    requires pauses.Get(c).Some? && pauses.Get(c).value.recoverable
    ensures CycleWrites(pauses, [Calm(c)]) == [Perform(c, ResumeTrading(pauses.Get(c).value.reason))]
  {
    assert OrderActions([]) == [];
    assert CycleWrites(pauses, [Calm(c)]) == WritesOf(PlanFor(pauses.Get(c), Calm(c))) by {
      assert CycleWrites(pauses, [Calm(c)][1..]) == [];
    }
  }

  /** A resume planned for an older, recoverable pause still drops a lasting pause set after the plan was made. */
  lemma StaleResumeDropsLastingPause(c: string)
    ensures var w := World(EmptyDict().Put(c, BuildPause(c, "market_not_tradable", Some(Reconcile), None)), []);
      var steps := [StartCycle([Calm(c)]), PauseMarket(c, "unexpected_resting_order", Some(Risk), None)];
      && Held(Run(w, steps).(pending := []), c, "unexpected_resting_order")
      && Next(Run(w, steps), NextWrite(0)).pauses.Get(c) == None
  {
    hide WritesOf, PlanFor, CycleWrites, Calm;
    var w := World(EmptyDict().Put(c, BuildPause(c, "market_not_tradable", Some(Reconcile), None)), []);
    CalmCycleResumes(w.pauses, c);
    RunTwo(w, StartCycle([Calm(c)]), PauseMarket(c, "unexpected_resting_order", Some(Risk), None));
  }
}

/** The service that builds a market's plan and the worker's loop that carries plans out. */
module Reconcile {
  import opened Prelude
  import opened AccountModel
  import opened AccountState
  import opened Markets
  import opened ReconcileModel

  method BuildMarketPlan(p: Option<MarketPause>, a: Answer) returns (plan: Plan)
    ensures plan == PlanFor(p, a)
  {
    var sticky := p.Some? && !p.value.recoverable;
    var pause := a.market.status in {Paused, Closed, Resolved} || sticky || a.quantPause;
    var reason := ResolvedPauseReason(p, a);
    var actions: seq<Action> := [];
    if p.Some? && !pause {
      actions := actions + [ResumeTrading(p.value.reason)];
    }
    ghost var first := actions;
    var i := 0;
    while i < |a.decisions|
      invariant 0 <= i <= |a.decisions|
      invariant actions == first + OrderActions(a.decisions[..i])
    {
      assert a.decisions[..i + 1][..i] == a.decisions[..i];
      var intent := a.decisions[i];
      if intent.Some? {
        actions := actions + [ManageOrder(intent.value)];
      }
      i := i + 1;
    }
    assert a.decisions[..i] == a.decisions;
    if pause {
      actions := actions + [PauseTrading(reason)];
    }
    return Plan(a.market.conditionId, pause, reason, actions);
  }

  function WritesOfAll(plans: seq<Plan>): seq<Write> {
    if plans == [] then [] else WritesOfAll(plans[..|plans| - 1]) + WritesOf(plans[|plans| - 1])
  }

  class ReconcileWorker {
    const store: AccountStateStore

    constructor (store: AccountStateStore)
      ensures this.store == store
    {
      this.store := store;
    }

    method ApplyAction(c: string, action: Action)
      requires store.Valid()
      modifies store`pauses
      ensures store.Valid() && store.pauses == ApplyWrite(old(store.pauses), Perform(c, action))
    {
      if action.ResumeTrading? {
        store.ResumeMarket(c);
      }
    }

    /** One market of the cycle: the pause is written before the actions run. */
    method ApplyPlan(plan: Plan)
      requires store.Valid()
      modifies store`pauses
      ensures store.Valid() && store.pauses == ApplyAll(old(store.pauses), WritesOf(plan))
    {
      ghost var before, ws := store.pauses, WritesOf(plan);
      ghost var lead := if plan.pause then 1 else 0;
      if plan.pause {
        store.PauseMarket(plan.conditionId, if plan.reason != "" then plan.reason else "market_not_tradable",
                          Some(Reconcile), None);
        ApplyAllStep(before, ws, 0);
      }
      var i := 0;
      while i < |plan.actions|
        invariant 0 <= i <= |plan.actions| && store.Valid()
        invariant store.pauses == ApplyAll(before, ws[..lead + i])
      {
        ApplyAllStep(before, ws, lead + i);
        assert ws[lead + i] == Perform(plan.conditionId, plan.actions[i]);
        ApplyAction(plan.conditionId, plan.actions[i]);
        i := i + 1;
      }
      assert ws[..lead + i] == ws;
    }

    /** The cycle's loop over its plans when nothing else writes in between. */
    method ApplyPlans(plans: seq<Plan>)
      requires store.Valid()
      modifies store`pauses
      ensures store.Valid() && store.pauses == ApplyAll(old(store.pauses), WritesOfAll(plans))
    {
      ghost var before := store.pauses;
      var i := 0;
      while i < |plans|
        invariant 0 <= i <= |plans| && store.Valid()
        invariant store.pauses == ApplyAll(before, WritesOfAll(plans[..i]))
      {
        assert plans[..i + 1][..i] == plans[..i];
        ApplyAllConcat(before, WritesOfAll(plans[..i]), WritesOf(plans[i]));
        ApplyPlan(plans[i]);
        i := i + 1;
      }
      assert plans[..i] == plans;
    }
  }
}

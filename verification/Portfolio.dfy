/**
 The saved plans, purchase records and holdings, and the three requests that change them:
 recording a purchase of a plan item, editing a pending item, removing a pending item.
 `Execute` is what one request does when nothing runs beside it.
 */
module Portfolio {
  import opened Wrappers
  import opened Rounding
  import opened PlanModel
  import opened PlanRecalculation
  import opened PlanLaws
  import H = Holdings

  type UserId = nat
  type ScenarioId = nat

  datatype Status = Saved | Archived

  datatype Scenario = Scenario(owner: UserId, status: Status, plan: Plan)

  type PurchaseKey = (ScenarioId, InstrumentId)
  type HoldingKey = (UserId, InstrumentId)

  datatype Db = Db(scenarios: map<ScenarioId, Scenario>,
                   purchases: map<PurchaseKey, H.Purchase>,
                   holdings: map<HoldingKey, H.Holding>)

  // The instruments a plan may hold (active ones), and the increment of every instrument.
  datatype Market = Market(catalogue: Catalogue, increments: map<InstrumentId, Pos>)

  datatype Request =
    | Buy(user: UserId, scenario: ScenarioId, instrument: InstrumentId, purchase: H.Purchase)
    | Edit(user: UserId, scenario: ScenarioId, instrument: InstrumentId, changes: Changes, now: int)
    | Remove(user: UserId, scenario: ScenarioId, instrument: InstrumentId, now: int)

  datatype Response =
    | NotFound | NotRestored | NotInPlan | OffStep | AlreadyOwned | PlanRefused(error: PlanError)
    | AlreadyRecorded | Recorded | Updated | Removed

  // ---------- Specification of one request ----------

  function Get<K, V>(m: map<K, V>, k: K): Option<V> {
    if k in m then Some(m[k]) else None
  }

  // The scenario a request names, when it belongs to the requesting user.
  function Lookup(db: Db, req: Request): Option<Scenario> {
    if req.scenario in db.scenarios && db.scenarios[req.scenario].owner == req.user
    then Some(db.scenarios[req.scenario]) else None
  }

  predicate InPlan(plan: Plan, id: InstrumentId) {
    exists i :: 0 <= i < |plan.allocations| && plan.allocations[i].instrument == id
  }

  function Owned(db: Db, scenario: ScenarioId): set<InstrumentId> {
    set key | key in db.purchases && key.0 == scenario :: key.1
  }

  lemma OwnedExactly(db: Db, scenario: ScenarioId, id: InstrumentId)
    ensures id in Owned(db, scenario) <==> (scenario, id) in db.purchases
  {
    var key: PurchaseKey := (scenario, id);
    assert key in db.purchases ==> key.1 in Owned(db, scenario);
  }

  // Why a purchase stops short of the holding, if it does.
  function PurchaseStop(s: Scenario, owned: set<InstrumentId>, market: Market, req: Request): Option<Response>
    requires req.Buy?
  {
    if s.status != Saved then Some(NotRestored)
    else if !InPlan(s.plan, req.instrument) then Some(NotInPlan)
    else if req.instrument in owned then Some(AlreadyRecorded)
    else if req.instrument !in market.increments then Some(NotFound)
    else if req.purchase.quantity % market.increments[req.instrument] != 0 then Some(OffStep)
    else None
  }

  datatype PlanChange = Keep | Replace(plan: Plan) | Delete

  // What an edit or a removal makes of the scenario.
  function PlanOutcome(s: Scenario, owned: set<InstrumentId>, market: Market, req: Request): (Response, PlanChange)
    requires !req.Buy?
  {
    if s.status != Saved then (NotRestored, Keep)
    else if req.instrument in owned then (AlreadyOwned, Keep)
    else if req.Edit? then
      match EditPlan(s.plan, req.instrument, req.changes, market.catalogue, req.now)
      case Err(e) => (PlanRefused(e), Keep)
      case Ok(plan) => (Updated, Replace(plan))
    else
      match RemoveFromPlan(s.plan, req.instrument, market.catalogue, req.now)
      case Err(e) => (PlanRefused(e), Keep)
      case Ok(None) => (Removed, Delete)
      case Ok(Some(plan)) => (Removed, if AllOwned(plan, owned) then Delete else Replace(plan))
  }

  predicate AllOwned(plan: Plan, owned: set<InstrumentId>) {
    forall i :: 0 <= i < |plan.allocations| ==> plan.allocations[i].instrument in owned
  }

  // Deleting a scenario deletes its purchase records, never a holding.
  function ApplyChange(db: Db, scenario: ScenarioId, change: PlanChange): Db
    requires scenario in db.scenarios
  {
    match change
    case Keep => db
    case Replace(plan) => db.(scenarios := db.scenarios[scenario := db.scenarios[scenario].(plan := plan)])
    case Delete => Db(db.scenarios - {scenario},
                      map key | key in db.purchases && key.0 != scenario :: db.purchases[key],
                      db.holdings)
  }

  function RecordPurchase(db: Db, req: Request, held: Option<H.Holding>): Db
    requires req.Buy?
  {
    db.(holdings := db.holdings[(req.user, req.instrument) := H.Fold(held, req.purchase)],
        purchases := db.purchases[(req.scenario, req.instrument) := req.purchase])
  }

  function Execute(db: Db, market: Market, req: Request): (Db, Response) {
    var found := Lookup(db, req);
    if found.None? then (db, NotFound)
    else if req.Buy? then
      var stop := PurchaseStop(found.value, Owned(db, req.scenario), market, req);
      if stop.Some? then (db, stop.value)
      else (RecordPurchase(db, req, Get(db.holdings, (req.user, req.instrument))), Recorded)
    else
      var outcome := PlanOutcome(found.value, Owned(db, req.scenario), market, req);
      (ApplyChange(db, req.scenario, outcome.1), outcome.0)
  }

  // ---------- The views ----------

  class Desk {
    var scenarios: map<ScenarioId, Scenario>
    var purchases: map<PurchaseKey, H.Purchase>
    var holdings: map<HoldingKey, H.Holding>

    constructor (db: Db)
      ensures Value() == db
    {
      scenarios, purchases, holdings := db.scenarios, db.purchases, db.holdings;
    }

    function Value(): Db
      reads this
    {
      Db(scenarios, purchases, holdings)
    }

    method PostPurchase(market: Market, user: UserId, scenarioId: ScenarioId, instrument: InstrumentId,
                        purchase: H.Purchase)
      returns (r: Response)
      modifies this
      ensures (Value(), r) == Execute(old(Value()), market, Buy(user, scenarioId, instrument, purchase))
    {
      if scenarioId !in scenarios || scenarios[scenarioId].owner != user {
        return NotFound;
      }
      var scenario := scenarios[scenarioId];
      if scenario.status != Saved {
        return NotRestored;
      }
      if !InPlan(scenario.plan, instrument) {
        return NotInPlan;
      }
      OwnedExactly(Value(), scenarioId, instrument);
      if (scenarioId, instrument) in purchases {
        return AlreadyRecorded;
      }
      if instrument !in market.increments {
        return NotFound;
      }
      if purchase.quantity % market.increments[instrument] != 0 {
        return OffStep;
      }
      var key := (user, instrument);
      if key !in holdings {
        holdings := holdings[key := H.Holding(purchase.quantity, purchase.unitPrice, purchase.fees,
                                              Some(purchase.purchasedAt))];
      } else {
        var holding := holdings[key];
        H.WeightedPriceBetween(holding, purchase);
        var weightedPrice := H.WeightedPrice(holding, purchase);
        var date := if holding.purchasedAt.Some?
                    then H.Min(holding.purchasedAt.value, purchase.purchasedAt) else purchase.purchasedAt;
        holdings := holdings[key := H.Holding(holding.quantity + purchase.quantity, weightedPrice,
                                              holding.fees + purchase.fees, Some(date))];
      }
      purchases := purchases[(scenarioId, instrument) := purchase];
      r := Recorded;
    }

    method PatchAllocation(market: Market, user: UserId, scenarioId: ScenarioId, instrument: InstrumentId,
                           changes: Changes, now: int)
      returns (r: Response)
      modifies this`scenarios
      ensures (Value(), r) == Execute(old(Value()), market, Edit(user, scenarioId, instrument, changes, now))
    {
      if scenarioId !in scenarios || scenarios[scenarioId].owner != user {
        return NotFound;
      }
      var scenario := scenarios[scenarioId];
      if scenario.status != Saved {
        return NotRestored;
      }
      OwnedExactly(Value(), scenarioId, instrument);
      if (scenarioId, instrument) in purchases {
        return AlreadyOwned;
      }
      var edited := UpdateSavedAllocation(scenario.plan, instrument, changes, market.catalogue, now);
      if edited.Err? {
        return PlanRefused(edited.error);
      }
      scenarios := scenarios[scenarioId := scenario.(plan := edited.value)];
      r := Updated;
    }

    method DeleteAllocation(market: Market, user: UserId, scenarioId: ScenarioId, instrument: InstrumentId, now: int)
      returns (r: Response)
      modifies this
      ensures (Value(), r) == Execute(old(Value()), market, Remove(user, scenarioId, instrument, now))
    {
      if scenarioId !in scenarios || scenarios[scenarioId].owner != user {
        return NotFound;
      }
      var scenario := scenarios[scenarioId];
      if scenario.status != Saved {
        return NotRestored;
      }
      OwnedExactly(Value(), scenarioId, instrument);
      if (scenarioId, instrument) in purchases {
        return AlreadyOwned;
      }
      var remaining := RemoveSavedAllocation(scenario.plan, instrument, market.catalogue, now);
      if remaining.Err? {
        return PlanRefused(remaining.error);
      }
      var owned := Owned(Value(), scenarioId);
      if remaining.value.None? || AllOwned(remaining.value.value, owned) {
        scenarios := scenarios - {scenarioId};
        purchases := map key | key in purchases && key.0 != scenarioId :: purchases[key];
      } else {
        scenarios := scenarios[scenarioId := scenario.(plan := remaining.value.value)];
      }
      r := Removed;
    }
  }

  // ---------- Runs of requests ----------

  function RunAll(db: Db, market: Market, reqs: seq<Request>): Db {
    if reqs == [] then db else Execute(RunAll(db, market, reqs[..|reqs| - 1]), market, reqs[|reqs| - 1]).0
  }

  function ResponseAt(db: Db, market: Market, reqs: seq<Request>, k: nat): Response
    requires k < |reqs|
  {
    Execute(RunAll(db, market, reqs[..k]), market, reqs[k]).1
  }

  lemma RunAllAppend(db: Db, market: Market, reqs: seq<Request>, last: Request)
    ensures RunAll(db, market, reqs + [last]) == Execute(RunAll(db, market, reqs), market, last).0
    ensures ResponseAt(db, market, reqs + [last], |reqs|) == Execute(RunAll(db, market, reqs), market, last).1
    ensures forall k :: 0 <= k < |reqs| ==>
              ResponseAt(db, market, reqs + [last], k) == ResponseAt(db, market, reqs, k)
  {
    assert (reqs + [last])[..|reqs|] == reqs;
    assert forall k :: 0 <= k < |reqs| ==> (reqs + [last])[..k] == reqs[..k];
  }

  // Repeating a purchase request, whatever its amounts, changes nothing.
  lemma PurchaseIdempotent(db: Db, market: Market, req: Request, again: Request)
    requires req.Buy? && again.Buy? && Execute(db, market, req).1 == Recorded
    requires again.user == req.user && again.scenario == req.scenario && again.instrument == req.instrument
    ensures var after := Execute(db, market, req).0;
            Execute(after, market, again) == (after, AlreadyRecorded)
  {
    var after := Execute(db, market, req).0;
    assert (req.scenario, req.instrument) in after.purchases;
    assert Lookup(after, again) == Lookup(db, req);
  }

  // ---------- What becomes of a bought item ----------

  // The plan still has the item, with every field but its percentage; its allocated amount
  // and remainder are the ones it had or, once a plan was recalculated, the exact ones.
  predicate Keeps(plan: Plan, item: Allocation) {
    exists i :: 0 <= i < |plan.allocations| && KeptAs(plan.allocations[i], item)
  }

  predicate KeptAs(now: Allocation, item: Allocation) {
    Basis(now) == Basis(item) && (now == item.(percentage := now.percentage) || Settled(now))
  }

  lemma {:induction false} WithoutKeeps(items: seq<Allocation>, id: InstrumentId, i: nat) returns (k: nat)
    requires i < |items| && items[i].instrument != id
    ensures k < |Without(items, id)| && Without(items, id)[k] == items[i]
  {
    if i == 0 {
      k := 0;
    } else {
      k := WithoutKeeps(items[1..], id, i - 1);
      if items[0].instrument != id {
        k := k + 1;
      }
    }
  }

  lemma RecalculationKeepsItem(p: Plan, i: nat, item: Allocation, catalogue: Catalogue, now: int)
    requires i < |p.allocations| && KeptAs(p.allocations[i], item)
    requires Recalculation(p, catalogue, now).Ok?
    ensures Keeps(Recalculation(p, catalogue, now).value, item)
  {
    RecalculationKeepsBasis(p, catalogue, now);
    var q := Recalculation(p, catalogue, now).value;
    assert Basis(q.allocations[i]) == Basis(p.allocations[i]);
    assert KeptAs(q.allocations[i], item);
  }

  // No request that leaves the scenario in place touches a bought item of it.
  lemma RequestKeepsBought(db: Db, market: Market, req: Request, scenario: ScenarioId, item: Allocation)
    requires scenario in db.scenarios && (scenario, item.instrument) in db.purchases
    requires Keeps(db.scenarios[scenario].plan, item)
    ensures var after := Execute(db, market, req).0;
            scenario in after.scenarios ==>
              (scenario, item.instrument) in after.purchases && Keeps(after.scenarios[scenario].plan, item)
  {
    var after := Execute(db, market, req).0;
    var plan := db.scenarios[scenario].plan;
    if scenario in after.scenarios && after.scenarios[scenario] != db.scenarios[scenario] {
      assert item.instrument in Owned(db, scenario);
      var i :| 0 <= i < |plan.allocations| && KeptAs(plan.allocations[i], item);
      assert plan.allocations[i].instrument == Basis(plan.allocations[i]).instrument == item.instrument;
      assert req.instrument != item.instrument;
      if req.Edit? {
        var edited := EditedItems(plan.allocations, req.instrument, req.changes, req.now);
        assert edited[i] == plan.allocations[i];
        RecalculationKeepsItem(plan.(allocations := edited), i, item, market.catalogue, req.now);
      } else {
        var k := WithoutKeeps(plan.allocations, req.instrument, i);
        RecalculationKeepsItem(plan.(allocations := Without(plan.allocations, req.instrument)), k, item,
                               market.catalogue, req.now);
      }
    }
  }

  lemma DeletedStaysDeleted(db: Db, market: Market, req: Request, scenario: ScenarioId)
    ensures scenario in Execute(db, market, req).0.scenarios ==> scenario in db.scenarios
  {
  }

  // Over any run of purchases, edits and removals, a bought item changes only in percentage
  // (and, once, to its exact allocated amount) for as long as its scenario exists.
  lemma {:induction false} BoughtItemFrozen(db: Db, market: Market, reqs: seq<Request>, scenario: ScenarioId,
                                            item: Allocation)
    requires scenario in db.scenarios && (scenario, item.instrument) in db.purchases
    requires Keeps(db.scenarios[scenario].plan, item)
    ensures var after := RunAll(db, market, reqs);
            scenario in after.scenarios ==>
              (scenario, item.instrument) in after.purchases && Keeps(after.scenarios[scenario].plan, item)
  {
    if reqs != [] {
      var before, last := reqs[..|reqs| - 1], reqs[|reqs| - 1];
      BoughtItemFrozen(db, market, before, scenario, item);
      var mid := RunAll(db, market, before);
      DeletedStaysDeleted(mid, market, last, scenario);
      if scenario in mid.scenarios {
        RequestKeepsBought(mid, market, last, scenario, item);
      }
    }
  }

  // ---------- What becomes of a holding ----------

  // The purchases a run actually folded into one holding, in order.
  function BoughtInto(db: Db, market: Market, reqs: seq<Request>, key: HoldingKey): seq<H.Purchase> {
    if reqs == [] then []
    else
      var last := reqs[|reqs| - 1];
      BoughtInto(db, market, reqs[..|reqs| - 1], key)
      + (if last.Buy? && (last.user, last.instrument) == key
            && ResponseAt(db, market, reqs, |reqs| - 1) == Recorded
         then [last.purchase] else [])
  }

  // One request folds its purchase into its own holding when it is recorded, and that is all.
  lemma ExecuteHolding(db: Db, market: Market, req: Request, key: HoldingKey)
    ensures var (after, response) := Execute(db, market, req);
            Get(after.holdings, key)
            == if req.Buy? && (req.user, req.instrument) == key && response == Recorded
               then Some(H.Fold(Get(db.holdings, key), req.purchase)) else Get(db.holdings, key)
  {
  }

  lemma {:induction false} HoldingIsFold(db: Db, market: Market, reqs: seq<Request>, key: HoldingKey)
    ensures Get(RunAll(db, market, reqs).holdings, key)
         == H.FoldAll(Get(db.holdings, key), BoughtInto(db, market, reqs, key))
  {
    if reqs != [] {
      var before, last := reqs[..|reqs| - 1], reqs[|reqs| - 1];
      HoldingIsFold(db, market, before, key);
      ExecuteHolding(RunAll(db, market, before), market, last, key);
      var bought := BoughtInto(db, market, before, key);
      if last.Buy? {
        H.FoldAllAppend(Get(db.holdings, key), bought, last.purchase);
      }
      assert bought + [] == bought;
    }
  }

  // Every purchase folded into a holding was of whole increments, so a holding that a run
  // creates is a whole number of increments.
  lemma {:induction false} BoughtInIncrements(db: Db, market: Market, reqs: seq<Request>, key: HoldingKey)
    ensures AllInIncrements(BoughtInto(db, market, reqs, key), market, key.1)
  {
    if reqs != [] {
      var earlier, last := reqs[..|reqs| - 1], reqs[|reqs| - 1];
      BoughtInIncrements(db, market, earlier, key);
      if last.Buy? && Execute(RunAll(db, market, earlier), market, last).1 == Recorded {
        RecordedInIncrements(RunAll(db, market, earlier), market, last);
      }
    }
  }

  predicate AllInIncrements(ps: seq<H.Purchase>, market: Market, id: InstrumentId) {
    forall i :: 0 <= i < |ps| ==> InIncrements(ps[i], market, id)
  }

  predicate InIncrements(p: H.Purchase, market: Market, id: InstrumentId) {
    id in market.increments && p.quantity % market.increments[id] == 0
  }

  lemma RecordedInIncrements(db: Db, market: Market, req: Request)
    requires req.Buy? && Execute(db, market, req).1 == Recorded
    ensures InIncrements(req.purchase, market, req.instrument)
  {
  }

  lemma HoldingInIncrements(db: Db, market: Market, reqs: seq<Request>, key: HoldingKey)
    requires key !in db.holdings && key in RunAll(db, market, reqs).holdings
    ensures key.1 in market.increments
    ensures RunAll(db, market, reqs).holdings[key].quantity % market.increments[key.1] == 0
  {
    var bought := BoughtInto(db, market, reqs, key);
    HoldingIsFold(db, market, reqs, key);
    BoughtInIncrements(db, market, reqs, key);
    H.QuantityAndFeesExact(None, bought);
    assert bought != [] && InIncrements(bought[0], market, key.1);
    assert forall i :: 0 <= i < |bought| ==> InIncrements(bought[i], market, key.1);
    H.WholeIncrements(bought, market.increments[key.1]);
  }

  // A removal that keeps the scenario leaves something in it still to buy.
  lemma RemovalLeavesPending(db: Db, market: Market, req: Request)
    requires req.Remove? && Execute(db, market, req).1 == Removed
    ensures var after := Execute(db, market, req).0;
            req.scenario in after.scenarios ==>
              !AllOwned(after.scenarios[req.scenario].plan, Owned(after, req.scenario))
  {
    assert Owned(db, req.scenario) == Owned(Execute(db, market, req).0, req.scenario)
        || req.scenario !in Execute(db, market, req).0.scenarios;
  }
}

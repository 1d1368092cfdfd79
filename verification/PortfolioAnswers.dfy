/**
 What each portfolio request answers and leaves, said of the stored rows: which scenario, whose,
 in which status, with which items and purchase records.
 */
module PortfolioAnswers {
  import opened Wrappers
  import opened PlanModel
  import opened PlanRecalculation
  import opened PlanAcceptance
  import opened PlanLaws
  import opened Portfolio
  import H = Holdings

  // The scenario is there and the requesting user's, and has not been archived.
  predicate Mine(db: Db, req: Request) {
    req.scenario in db.scenarios && db.scenarios[req.scenario].owner == req.user
  }

  predicate Open(db: Db, req: Request) {
    Mine(db, req) && db.scenarios[req.scenario].status == Saved
  }

  predicate Bought(db: Db, req: Request) {
    (req.scenario, req.instrument) in db.purchases
  }

  // The plan has an item of the instrument.
  predicate Planned(db: Db, req: Request)
    requires req.scenario in db.scenarios
  {
    var items := db.scenarios[req.scenario].plan.allocations;
    exists i :: 0 <= i < |items| && items[i].instrument == req.instrument
  }

  // ---------- Purchases ----------

  predicate InSteps(req: Request, market: Market)
    requires req.Buy?
  {
    req.instrument in market.increments && req.purchase.quantity % market.increments[req.instrument] == 0
  }

  lemma BuyAnswers(db: Db, market: Market, req: Request)
    requires req.Buy?
    ensures var r := Execute(db, market, req).1;
            && (r == Recorded <==> Open(db, req) && Planned(db, req) && !Bought(db, req) && InSteps(req, market))
            && (r == AlreadyRecorded <==> Open(db, req) && Planned(db, req) && Bought(db, req))
            && (r == NotRestored <==> Mine(db, req) && !Open(db, req))
            && (r == NotInPlan <==> Open(db, req) && !Planned(db, req))
            && (r == OffStep <==> Open(db, req) && Planned(db, req) && !Bought(db, req)
                                  && req.instrument in market.increments && !InSteps(req, market))
            && (r == NotFound <==> !Mine(db, req) || (Open(db, req) && Planned(db, req) && !Bought(db, req)
                                                      && req.instrument !in market.increments))
  {
    OwnedExactly(db, req.scenario, req.instrument);
  }

  // A purchase that is recorded adds its record and changes the one holding; any other answer
  // leaves everything.
  lemma BuyLeaves(db: Db, market: Market, req: Request)
    requires req.Buy?
    ensures var (after, r) := Execute(db, market, req);
            var key := (req.user, req.instrument);
            && after.scenarios == db.scenarios
            && (r != Recorded ==> after == db)
            && (r == Recorded ==>
                  && after.purchases == db.purchases[(req.scenario, req.instrument) := req.purchase]
                  && key in after.holdings && after.holdings == db.holdings[key := after.holdings[key]]
                  && H.HeldAfter(Get(db.holdings, key), req.purchase, after.holdings[key]))
  {
    H.FoldExactly(Get(db.holdings, (req.user, req.instrument)), req.purchase);
  }

  // ---------- Edits ----------

  lemma EditAnswers(db: Db, market: Market, req: Request)
    requires req.Edit?
    ensures var r := Execute(db, market, req).1;
            && (r == NotFound <==> !Mine(db, req))
            && (r == NotRestored <==> Mine(db, req) && !Open(db, req))
            && (r == AlreadyOwned <==> Open(db, req) && Bought(db, req))
            && (r == Updated <==> Open(db, req) && !Bought(db, req) && Planned(db, req) && EditHolds(db, market, req))
            && (r.PlanRefused? ==> Open(db, req) && !Bought(db, req))
            && (Open(db, req) && !Bought(db, req) && !Planned(db, req) ==> r == PlanRefused(UnknownInstrument))
  {
    OwnedExactly(db, req.scenario, req.instrument);
    if Open(db, req) {
      EditExactly(db.scenarios[req.scenario].plan, req.instrument, req.changes, market.catalogue, req.now);
    }
  }

  // The edited plan can be recalculated.
  predicate EditHolds(db: Db, market: Market, req: Request)
    requires req.Edit? && req.scenario in db.scenarios
  {
    var plan := db.scenarios[req.scenario].plan;
    var items := EditedItems(plan.allocations, req.instrument, req.changes, req.now);
    Acceptable(plan.(allocations := items), market.catalogue, req.now)
  }

  // An edit changes the plan of its scenario, and nothing at all unless it is accepted.
  lemma EditLeaves(db: Db, market: Market, req: Request)
    requires req.Edit?
    ensures var (after, r) := Execute(db, market, req);
            && after.purchases == db.purchases && after.holdings == db.holdings
            && (r != Updated ==> after == db)
            && (r == Updated ==>
                  var before := db.scenarios[req.scenario];
                  var edited := EditPlan(before.plan, req.instrument, req.changes, market.catalogue, req.now);
                  edited.Ok? && after.scenarios == db.scenarios[req.scenario := before.(plan := edited.value)])
  {
  }

  // ---------- Removals ----------

  lemma RemoveAnswers(db: Db, market: Market, req: Request)
    requires req.Remove?
    ensures var r := Execute(db, market, req).1;
            && (r == NotFound <==> !Mine(db, req))
            && (r == NotRestored <==> Mine(db, req) && !Open(db, req))
            && (r == AlreadyOwned <==> Open(db, req) && Bought(db, req))
            && (r == Removed <==> Open(db, req) && !Bought(db, req) && Planned(db, req) && RestHolds(db, market, req))
            && (Open(db, req) && !Bought(db, req) && !Planned(db, req) ==> r == PlanRefused(UnknownInstrument))
            && (r != Removed ==> Execute(db, market, req).0 == db)
  {
    OwnedExactly(db, req.scenario, req.instrument);
    if Open(db, req) {
      RemovalExactly(db.scenarios[req.scenario].plan, req.instrument, market.catalogue, req.now);
    }
  }

  // What is left of the plan is nothing or can be recalculated.
  predicate RestHolds(db: Db, market: Market, req: Request)
    requires req.Remove? && req.scenario in db.scenarios
  {
    var plan := db.scenarios[req.scenario].plan;
    var rest := Without(plan.allocations, req.instrument);
    rest == [] || Acceptable(plan.(allocations := rest), market.catalogue, req.now)
  }

  // Every item of the plan but the instrument's has been bought.
  predicate NothingElseToBuy(db: Db, req: Request)
    requires req.scenario in db.scenarios
  {
    var items := db.scenarios[req.scenario].plan.allocations;
    forall i :: 0 <= i < |items| && items[i].instrument != req.instrument ==>
      (req.scenario, items[i].instrument) in db.purchases
  }

  // An accepted removal deletes the scenario exactly when nothing else of it is left to buy.
  lemma RemovalDeletesExactly(db: Db, market: Market, req: Request)
    requires req.Remove? && Execute(db, market, req).1 == Removed
    ensures req.scenario in db.scenarios
    ensures req.scenario !in Execute(db, market, req).0.scenarios <==> NothingElseToBuy(db, req)
  {
    var plan := db.scenarios[req.scenario].plan;
    RemovalLeavesOthers(plan, req.instrument, market.catalogue, req.now);
    WithoutExactly(plan.allocations, req.instrument);
    var left := RemoveFromPlan(plan, req.instrument, market.catalogue, req.now).value;
    if left.Some? {
      OthersOwnedExactly(db, req, left.value);
    }
  }

  // A scenario that stays keeps its owner, its status, its purchase records and the other items; a
  // deleted one takes its records with it. Holdings, other scenarios and their records stay.
  lemma RemovalLeaves(db: Db, market: Market, req: Request)
    requires req.Remove? && Execute(db, market, req).1 == Removed
    ensures var after, before := Execute(db, market, req).0, db.scenarios[req.scenario];
            && (req.scenario in after.scenarios ==>
                  && after.purchases == db.purchases
                  && after.scenarios[req.scenario] == before.(plan := after.scenarios[req.scenario].plan)
                  && SameBasis(after.scenarios[req.scenario].plan.allocations,
                               Without(before.plan.allocations, req.instrument)))
            && (req.scenario !in after.scenarios ==> forall key :: key in after.purchases ==> key.0 != req.scenario)
            && after.holdings == db.holdings
            && (forall s :: s != req.scenario ==> Get(after.scenarios, s) == Get(db.scenarios, s))
            && (forall key: PurchaseKey :: key.0 != req.scenario ==>
                Get(after.purchases, key) == Get(db.purchases, key))
  {
    RemovalLeavesOthers(db.scenarios[req.scenario].plan, req.instrument, market.catalogue, req.now);
  }

  lemma OthersOwnedExactly(db: Db, req: Request, left: Plan)
    requires req.scenario in db.scenarios
    requires SameBasis(left.allocations, Without(db.scenarios[req.scenario].plan.allocations, req.instrument))
    ensures AllOwned(left, Owned(db, req.scenario)) <==> NothingElseToBuy(db, req)
  {
    var items := db.scenarios[req.scenario].plan.allocations;
    var others := Without(items, req.instrument);
    WithoutExactly(items, req.instrument);
    forall i | 0 <= i < |others|
      ensures left.allocations[i].instrument == others[i].instrument
      ensures left.allocations[i].instrument in Owned(db, req.scenario)
         <==> (req.scenario, others[i].instrument) in db.purchases
    {
      assert Basis(left.allocations[i]).instrument == Basis(others[i]).instrument;
      OwnedExactly(db, req.scenario, others[i].instrument);
    }
    if AllOwned(left, Owned(db, req.scenario)) {
      forall i | 0 <= i < |items| && items[i].instrument != req.instrument
        ensures (req.scenario, items[i].instrument) in db.purchases
      {
        assert items[i] in others;
        var k :| 0 <= k < |others| && others[k] == items[i];
        assert left.allocations[k].instrument in Owned(db, req.scenario);
      }
    } else {
      var k :| 0 <= k < |left.allocations| && left.allocations[k].instrument !in Owned(db, req.scenario);
      assert others[k] in others && others[k] in items;
      var i :| 0 <= i < |items| && items[i] == others[k];
    }
  }
}

/** Saving a plan from the widget that quoted it: the quotes must be the widget's own. */
module PlanSaving {
  import opened Wrappers
  import opened Rounding
  import opened PlanModel
  import opened PlanRecalculation
  import opened PlanAcceptance

  // Everything quoted of an item: all but its percentage, amounts and quantity.
  predicate SameQuote(a: Allocation, b: Allocation) {
    a == b.(percentage := a.percentage, target := a.target, quantity := a.quantity,
            actual := a.actual, remainder := a.remainder)
  }

  function Instruments(items: seq<Allocation>): set<InstrumentId> {
    set i | 0 <= i < |items| :: items[i].instrument
  }

  // Every incoming item repeats the quote of the original item of the same instrument.
  predicate QuotesKept(incoming: seq<Allocation>, original: seq<Allocation>) {
    forall i :: 0 <= i < |incoming| ==>
      var k := IndexOf(original, incoming[i].instrument);
      k < |original| && SameQuote(incoming[i], original[k])
  }

  function ValidateSaved(payload: Plan, original: Plan, catalogue: Catalogue, now: int): Result<Plan, PlanError> {
    var incoming :- Validate(payload, catalogue, now, false);
    // The widget's plan predates the save, so only its flag is supplied for it.
    var quoted :- Validate(original.(saved := true), catalogue, now, false);
    if incoming.confirmed != quoted.confirmed || incoming.currency != quoted.currency
       || incoming.disclaimer != quoted.disclaimer then Err(ChangedPlanData)
    else if Instruments(incoming.allocations) != Instruments(quoted.allocations) then Err(ChangedInstruments)
    else if !QuotesKept(incoming.allocations, quoted.allocations) then Err(ChangedQuote)
    else Ok(incoming)
  }

  // ---------- What a save compares ----------

  // The fields a save may not change, one by one.
  predicate QuoteAgrees(a: Allocation, b: Allocation) {
    && a.listing.code == b.listing.code && a.displayName == b.displayName
    && a.listing.assetClass == b.listing.assetClass && a.unitPrice == b.unitPrice
    && a.listing.priceCurrency == b.listing.priceCurrency && a.listing.unit == b.listing.unit
    && a.listing.priceType == b.listing.priceType && a.listing.increment == b.listing.increment
    && a.observedAt == b.observedAt && a.source == b.source && a.mode == b.mode
    && a.priority == b.priority && a.matchFactors == b.matchFactors
  }

  predicate Holds(items: seq<Allocation>, id: InstrumentId) {
    exists i :: 0 <= i < |items| && items[i].instrument == id
  }

  // The payload keeps what was quoted: the same plan data, the same instruments, and of each of
  // them the same quote.
  predicate KeepsPlanData(payload: Plan, original: Plan) {
    && payload.confirmed == original.confirmed && payload.currency == original.currency
    && payload.disclaimer == original.disclaimer
  }

  ghost predicate KeepsInstruments(xs: seq<Allocation>, ys: seq<Allocation>) {
    forall id :: Holds(xs, id) <==> Holds(ys, id)
  }

  predicate KeepsEachQuote(xs: seq<Allocation>, ys: seq<Allocation>) {
    forall i, j :: 0 <= i < |xs| && 0 <= j < |ys| && xs[i].instrument == ys[j].instrument ==>
      QuoteAgrees(xs[i], ys[j])
  }

  ghost predicate KeepsQuotes(payload: Plan, original: Plan) {
    && KeepsPlanData(payload, original)
    && KeepsInstruments(payload.allocations, original.allocations)
    && KeepsEachQuote(payload.allocations, original.allocations)
  }

  // A save is accepted exactly when both plans pass the validator and the payload keeps the quotes.
  lemma SavedExactly(payload: Plan, original: Plan, catalogue: Catalogue, now: int)
    ensures ValidateSaved(payload, original, catalogue, now).Ok?
       <==> Validate(payload, catalogue, now, false).Ok?
            && Validate(original.(saved := true), catalogue, now, false).Ok?
            && KeepsQuotes(payload, original)
    ensures ValidateSaved(payload, original, catalogue, now).Ok? ==>
              ValidateSaved(payload, original, catalogue, now).value == payload
    ensures var valid := Validate(payload, catalogue, now, false);
            var quoted := Validate(original.(saved := true), catalogue, now, false);
            && (valid.Err? ==> ValidateSaved(payload, original, catalogue, now) == valid)
            && (valid.Ok? && quoted.Err? ==> ValidateSaved(payload, original, catalogue, now) == quoted)
            && (valid.Ok? && quoted.Ok? ==>
                  ValidateSaved(payload, original, catalogue, now)
                  == if !KeepsPlanData(payload, original) then Err(ChangedPlanData)
                     else if !KeepsInstruments(payload.allocations, original.allocations) then Err(ChangedInstruments)
                     else if !KeepsEachQuote(payload.allocations, original.allocations) then Err(ChangedQuote)
                     else Ok(payload))
  {
    var xs, ys := payload.allocations, original.allocations;
    InstrumentsExactly(xs);
    InstrumentsExactly(ys);
    if Validate(original.(saved := true), catalogue, now, false).Ok? {
      QuotesExactly(xs, ys);
    }
    assert Instruments(xs) == Instruments(ys) <==> forall id :: Holds(xs, id) <==> Holds(ys, id);
  }

  lemma InstrumentsExactly(items: seq<Allocation>)
    ensures forall id :: id in Instruments(items) <==> Holds(items, id)
  {
  }

  lemma QuotesExactly(xs: seq<Allocation>, ys: seq<Allocation>)
    requires DistinctInstruments(ys)
    ensures Instruments(xs) == Instruments(ys) ==>
              (QuotesKept(xs, ys) <==> KeepsEachQuote(xs, ys))
  {
    forall j | 0 <= j < |ys|
      ensures IndexOf(ys, ys[j].instrument) == j
    {
      assert IndexOf(ys, ys[j].instrument) <= j;
    }
    forall i, j | 0 <= i < |xs| && 0 <= j < |ys| && xs[i].instrument == ys[j].instrument
      ensures SameQuote(xs[i], ys[j]) <==> QuoteAgrees(xs[i], ys[j])
    {
    }
    if Instruments(xs) == Instruments(ys) {
      InstrumentsExactly(ys);
      forall i | 0 <= i < |xs|
        ensures IndexOf(ys, xs[i].instrument) < |ys|
      {
        assert xs[i].instrument in Instruments(xs);
        var j :| 0 <= j < |ys| && ys[j].instrument == xs[i].instrument;
      }
    }
  }

  // The same plan at half the quoted price is refused, however consistent it is in itself.
  lemma RepricedIsRefused(payload: Plan, original: Plan, catalogue: Catalogue, now: int, i: nat, j: nat)
    requires i < |payload.allocations| && j < |original.allocations|
    requires payload.allocations[i].instrument == original.allocations[j].instrument
    requires payload.allocations[i].unitPrice != original.allocations[j].unitPrice
    ensures ValidateSaved(payload, original, catalogue, now).Err?
  {
    SavedExactly(payload, original, catalogue, now);
  }

  // What the validator accepts it accepts at any later time.
  lemma ValidLater(p: Plan, catalogue: Catalogue, now: int, later: int, allowUnder: bool)
    requires now <= later && Validate(p, catalogue, now, allowUnder).Ok?
    ensures Validate(p, catalogue, later, allowUnder) == Ok(p)
  {
    CheckItemsAll(p.allocations, p.confirmed, now, allowUnder);
    CheckItemsAll(p.allocations, p.confirmed, later, allowUnder);
    forall i | 0 <= i < |p.allocations|
      ensures CheckItem(p.allocations[i], p.confirmed, later, allowUnder).Ok?
    {
      assert CheckItem(p.allocations[i], p.confirmed, now, allowUnder).Ok?;
    }
  }

  // Saving later what was saved is accepted, against the widget's plan and against the saved plan
  // itself.
  lemma ResaveAccepted(payload: Plan, original: Plan, catalogue: Catalogue, now: int, later: int)
    requires now <= later && ValidateSaved(payload, original, catalogue, now).Ok?
    ensures ValidateSaved(payload, original, catalogue, later) == Ok(payload)
    ensures ValidateSaved(payload, payload, catalogue, later) == Ok(payload)
  {
    ValidLater(payload, catalogue, now, later, false);
    ValidLater(original.(saved := true), catalogue, now, later, false);
    var items := payload.allocations;
    forall i | 0 <= i < |items|
      ensures IndexOf(items, items[i].instrument) == i
    {
      var k := IndexOf(items, items[i].instrument);
      assert k <= i;
      assert DistinctInstruments(items);
    }
  }

  // A save cannot move the plan's total by more than the validator's tolerances, twice.
  lemma SaveMovesTotalLittle(payload: Plan, original: Plan, catalogue: Catalogue, now: int)
    requires ValidateSaved(payload, original, catalogue, now).Ok?
    ensures Abs(SumTargets(payload.allocations) - SumTargets(original.allocations)) <= 14
    ensures payload.saved && payload.confirmed == original.confirmed
  {
    SavedExactly(payload, original, catalogue, now);
    TotalsAlike(payload, original.(saved := true), catalogue, now);
  }

  lemma TotalsAlike(p: Plan, q: Plan, catalogue: Catalogue, now: int)
    requires Validate(p, catalogue, now, false).Ok? && Validate(q, catalogue, now, false).Ok?
    requires p.confirmed == q.confirmed
    ensures Abs(SumTargets(p.allocations) - SumTargets(q.allocations)) <= 14 && p.saved
  {
    TolerancesCompose(p, catalogue, now, false);
    TolerancesCompose(q, catalogue, now, false);
  }

  // ---------- What an accepted plan can cost ----------

  // The exact cost of all quantities, in units of 1e-16.
  function SumCost(items: seq<Allocation>): int {
    if items == [] then 0 else items[0].quantity * items[0].unitPrice + SumCost(items[1..])
  }

  lemma {:induction false} CostsWithinTargets(items: seq<Allocation>, confirmed: int, now: int, allowUnder: bool)
    requires CheckItems(items, confirmed, now, allowUnder).Ok?
    ensures SumCost(items) <= SumTargets(items) * CENT
  {
    if items != [] {
      CostsWithinTargets(items[1..], confirmed, now, allowUnder);
      AllowedWithinTarget(items[0], allowUnder);
    }
  }

  lemma AllowedWithinTarget(a: Allocation, allowUnder: bool)
    requires QuantityAllowed(a, allowUnder)
    ensures WithinTarget(a)
  {
    DerivedQuantityIsGreatest(a.target, a.unitPrice, a.listing.increment);
    MulMonotone(a.quantity, AffordableQuantity(a.target, a.unitPrice, a.listing.increment), a.unitPrice);
  }

  // Buying every quantity of an accepted plan at its quotes costs at most 7 cents more than the
  // confirmed amount.
  lemma AcceptedPlanIsAffordable(p: Plan, catalogue: Catalogue, now: int, allowUnder: bool)
    requires Validate(p, catalogue, now, allowUnder).Ok?
    ensures SumCost(p.allocations) <= (p.confirmed + 7) * CENT
  {
    CostsWithinTargets(p.allocations, p.confirmed, now, allowUnder);
    TolerancesCompose(p, catalogue, now, allowUnder);
  }

  // After an edit it costs at most the confirmed amount.
  lemma RecalculatedPlanIsAffordable(p: Plan, catalogue: Catalogue, now: int)
    requires Recalculation(p, catalogue, now).Ok?
    ensures var q := Recalculation(p, catalogue, now).value;
            SumCost(q.allocations) <= q.confirmed * CENT
  {
    var q := Recalculation(p, catalogue, now).value;
    CostsWithinTargets(q.allocations, q.confirmed, now, true);
    RecalculationConserves(p, catalogue, now);
  }
}

/**
 Exactly which plans survive recalculation and the validation that follows it, and how the
 rounded percentages decide. A non-last item's percentage is rounded from its target, and the
 last item takes what is left, so each target drifts from its percentage; the validator
 tolerates a drift of two cents.
 */
module PlanAcceptance {
  import opened Wrappers
  import opened Rounding
  import opened PlanModel
  import opened PlanRecalculation

  // ---------- The drift of a rounded percentage ----------

  // confirmed * Share - WHOLE * target, read off the division's rest: hundredths of a basis
  // point of a cent by which the rounded percentage overshoots the target.
  function Drift(target: nat, confirmed: Pos): int {
    var rest := target * WHOLE % confirmed;
    if 2 * rest < confirmed then -rest else confirmed - rest
  }

  // Two cents and a half, the half only when half-even rounding falls back to the target's side.
  predicate Tolerable(drift: int, target: nat) {
    Abs(drift) < 25000 || (Abs(drift) == 25000 && target % 2 == 0)
  }

  function SumDrifts(items: seq<Allocation>, confirmed: Pos): int {
    if items == [] then 0 else Drift(items[0].target, confirmed) + SumDrifts(items[1..], confirmed)
  }

  // The drifts of the non-last items, and the opposite of their sum on the last one.
  predicate SharesTolerable(items: seq<Allocation>, confirmed: Pos)
    requires items != []
  {
    var last := |items| - 1;
    && (forall i :: 0 <= i < last ==> Tolerable(Drift(items[i].target, confirmed), items[i].target))
    && Tolerable(-SumDrifts(items[..last], confirmed), items[last].target)
  }

  lemma ShareDrift(target: nat, confirmed: Pos)
    ensures confirmed * Share(target, confirmed) == WHOLE * target + Drift(target, confirmed)
    ensures 0 < confirmed + 2 * Drift(target, confirmed) <= 2 * confirmed
  {
    var n := target * WHOLE;
    DivMod(n, confirmed);
    Distribute(confirmed, n / confirmed, 1);
    assert confirmed * (n / confirmed) == n / confirmed * confirmed;
  }

  // An exact share is confirmed * percentage; when it overshoots the target by `drift`, the
  // validator's check holds exactly for a tolerable drift.
  lemma TargetCheckByDrift(target: nat, exact: int, drift: int)
    requires exact == WHOLE * target + drift
    ensures Abs(target - HalfEven(exact, WHOLE)) <= TOLERANCE <==> Tolerable(drift, target)
  {
  }

  lemma ShareInRange(target: nat, confirmed: Pos)
    requires target <= confirmed
    ensures 0 <= Share(target, confirmed) <= WHOLE
  {
    ShareDrift(target, confirmed);
    var s := Share(target, confirmed);
    if s > WHOLE {
      MulMonotone(WHOLE + 1, s, confirmed);
    }
    if s < 0 {
      MulMonotone(s, -1, confirmed);
    }
  }

  // ---------- The settled items ----------

  function SumShares(items: seq<Allocation>, confirmed: Pos): int {
    if items == [] then 0 else Share(items[0].target, confirmed) + SumShares(items[1..], confirmed)
  }

  lemma {:induction false} SumSharesDrift(items: seq<Allocation>, confirmed: Pos)
    ensures confirmed * SumShares(items, confirmed) == WHOLE * SumTargets(items) + SumDrifts(items, confirmed)
  {
    if items != [] {
      ShareDrift(items[0].target, confirmed);
      SumSharesDrift(items[1..], confirmed);
      Distribute(confirmed, Share(items[0].target, confirmed), SumShares(items[1..], confirmed));
    }
  }

  // The percentage recalculation gives item i.
  function PercentageAt(items: seq<Allocation>, confirmed: Pos, used: int, i: nat): int
    requires i < |items|
  {
    if i < |items| - 1 then Share(items[i].target, confirmed)
    else WHOLE - used - SumShares(items[..i], confirmed)
  }

  predicate AllCheck(items: seq<Allocation>) {
    forall i :: 0 <= i < |items| ==> CheckPurchase(items[i]).Ok?
  }

  // Settling is positional: it succeeds when every item passes, and rewrites item i with its
  // own cost and percentage.
  lemma {:induction false} SettleItemsAt(items: seq<Allocation>, confirmed: Pos, used: int)
    ensures SettleItems(items, confirmed, used).Ok? <==> AllCheck(items)
    ensures SettleItems(items, confirmed, used).Ok? ==>
              var settled := SettleItems(items, confirmed, used).value;
              && |settled| == |items|
              && forall i :: 0 <= i < |items| ==>
                   settled[i] == Settle(items[i], PercentageAt(items, confirmed, used, i))
  {
    if items != [] {
      var percentage := PercentageOf(items, confirmed, used).value;
      SettleItemsAt(items[1..], confirmed, used + percentage);
      assert forall i :: 0 < i < |items| ==> items[i] == items[1..][i - 1];
      forall i | 0 < i < |items|
        ensures PercentageAt(items, confirmed, used, i)
             == PercentageAt(items[1..], confirmed, used + percentage, i - 1)
      {
        assert items[..i][1..] == items[1..][..i - 1];
      }
      assert items[..0] == [];
    }
  }

  lemma {:induction false} SettledSums(items: seq<Allocation>, confirmed: nat, used: int)
    requires SettleItems(items, confirmed, used).Ok?
    ensures var settled := SettleItems(items, confirmed, used).value;
            && |settled| == |items|
            && (items != [] ==> SumPercentages(settled) == WHOLE - used)
            && SumTargets(settled) == SumTargets(items)
            && SumRemainders(settled) == SumTargets(items) - SumActual(settled)
            && 0 <= SumActual(settled) <= SumTargets(items)
            && forall i :: 0 <= i < |settled| ==> 0 <= settled[i].actual && 0 <= settled[i].remainder
  {
    if items != [] {
      var percentage := PercentageOf(items, confirmed, used).value;
      SettledSums(items[1..], confirmed, used + percentage);
      CostNonNegative(items[0].quantity, items[0].unitPrice);
      var settled := SettleItems(items, confirmed, used).value;
      var rest := SettleItems(items[1..], confirmed, used + percentage).value;
      assert settled == [Settle(items[0], percentage)] + rest;
      assert settled[1..] == rest;
    }
  }

  lemma CostNonNegative(quantity: nat, price: Pos)
    ensures 0 <= Cost(quantity, price)
  {
    MulMonotone(0, quantity, price);
  }

  // ---------- Conservation ----------

  // Whatever plan goes in, a recalculated plan conserves money exactly.
  lemma RecalculationConserves(p: Plan, catalogue: Catalogue, now: int)
    requires Recalculation(p, catalogue, now).Ok?
    ensures var q := Recalculation(p, catalogue, now).value;
            && SumPercentages(q.allocations) == WHOLE
            && SumTargets(q.allocations) == SumTargets(p.allocations) == q.confirmed
            && SumActual(q.allocations) == q.totalAllocated
            && SumRemainders(q.allocations) == q.totalRemainder
            && q.totalAllocated + q.totalRemainder == q.confirmed
            && forall i :: 0 <= i < |q.allocations| ==>
                 var a := q.allocations[i];
                 && 0 <= a.percentage <= WHOLE && 0 <= a.remainder
                 && a.actual + a.remainder == a.target
  {
    SettledSums(p.allocations, SumTargets(p.allocations), 0);
    var settled := SettleItems(p.allocations, SumTargets(p.allocations), 0).value;
    SettledParts(p.allocations, SumTargets(p.allocations), 0);
    assert Recalculation(p, catalogue, now).value == WithItems(p, settled);
    assert forall i :: 0 <= i < |settled| ==> ItemFieldsInRange(settled[i]);
  }

  lemma {:induction false} SettledParts(items: seq<Allocation>, confirmed: nat, used: int)
    requires SettleItems(items, confirmed, used).Ok?
    ensures var settled := SettleItems(items, confirmed, used).value;
            forall i :: 0 <= i < |settled| ==> settled[i].actual + settled[i].remainder == settled[i].target
  {
    if items != [] {
      SettledParts(items[1..], confirmed, used + PercentageOf(items, confirmed, used).value);
    }
  }

  // ---------- The residue on the last item ----------

  // With three items, a zero last target and the first share on a half basis point, both
  // shares round up and the last percentage is -0.01.
  predicate ResidueNegative(items: seq<Allocation>, confirmed: Pos) {
    |items| == 3 && items[2].target == 0 && 2 * (items[0].target * WHOLE % confirmed) == confirmed
  }

  lemma TwoShares(t0: nat, t1: nat, t2: nat, confirmed: Pos)
    requires t0 + t1 + t2 == confirmed
    ensures Share(t0, confirmed) + Share(t1, confirmed) > WHOLE
       <==> t2 == 0 && 2 * (t0 * WHOLE % confirmed) == confirmed
  {
    var s0, s1 := Share(t0, confirmed), Share(t1, confirmed);
    ShareDrift(t0, confirmed);
    ShareDrift(t1, confirmed);
    Distribute(confirmed, s0, s1);
    if t2 == 0 && 2 * (t0 * WHOLE % confirmed) == confirmed {
      TiesMeet(t0, t1, confirmed);
    }
    OvershootIsTwoTies(s0 + s1, t2, Drift(t0, confirmed), Drift(t1, confirmed), confirmed);
  }

  // The arithmetic of the above: two drifts of at most a half can only add up to one whole
  // step beyond 100 % when both are a half and nothing is left for the third item.
  lemma OvershootIsTwoTies(s: int, t2: nat, d0: int, d1: int, confirmed: Pos)
    requires 2 * d0 <= confirmed && 2 * d1 <= confirmed
    requires confirmed * s == WHOLE * (confirmed - t2) + d0 + d1
    ensures s > WHOLE ==> t2 == 0 && 2 * d0 == confirmed
    ensures t2 == 0 && 2 * d0 == confirmed && 2 * d1 == confirmed ==> s > WHOLE
  {
    if s > WHOLE {
      MulMonotone(WHOLE + 1, s, confirmed);
    } else {
      MulMonotone(s, WHOLE, confirmed);
    }
  }

  // When the two targets make up the whole and one share lies on a half, so does the other.
  lemma TiesMeet(t0: nat, t1: nat, confirmed: Pos)
    requires t0 + t1 == confirmed && 2 * (t0 * WHOLE % confirmed) == confirmed
    ensures 2 * (t1 * WHOLE % confirmed) == confirmed
  {
    var n0, n1 := t0 * WHOLE, t1 * WHOLE;
    DivMod(n0, confirmed);
    DivMod(n1, confirmed);
    var k := WHOLE - n0 / confirmed - n1 / confirmed;
    assert n0 + n1 == WHOLE * confirmed;
    assert k * confirmed == n0 % confirmed + n1 % confirmed;
    if k <= 0 {
      MulMonotone(k, 0, confirmed);
    }
    if k >= 2 {
      MulMonotone(2, k, confirmed);
    }
    assert k == 1;
  }

  lemma ResidueInRange(items: seq<Allocation>, confirmed: Pos)
    requires 1 <= |items| <= MAX_ITEMS && confirmed == SumTargets(items)
    ensures var last := |items| - 1;
            PercentageAt(items, confirmed, 0, last) <= WHOLE
            && (0 <= PercentageAt(items, confirmed, 0, last) <==> !ResidueNegative(items, confirmed))
    ensures forall i :: 0 <= i < |items| - 1 ==> 0 <= PercentageAt(items, confirmed, 0, i) <= WHOLE
  {
    var last := |items| - 1;
    var shares := items[..last];
    TargetsBounded(items);
    forall i | 0 <= i < |items|
      ensures 0 <= Share(items[i].target, confirmed) <= WHOLE
    {
      ShareInRange(items[i].target, confirmed);
    }
    SharesOfFew(shares, confirmed);
    if |items| == 3 {
      TotalsOfFew(items);
      TwoShares(items[0].target, items[1].target, items[2].target, confirmed);
    }
  }

  lemma SharesOfFew(items: seq<Allocation>, confirmed: Pos)
    ensures |items| == 0 ==> SumShares(items, confirmed) == 0
    ensures |items| == 1 ==> SumShares(items, confirmed) == Share(items[0].target, confirmed)
    ensures |items| == 2 ==>
              SumShares(items, confirmed) == Share(items[0].target, confirmed) + Share(items[1].target, confirmed)
  {
    if |items| == 1 {
      assert items[1..] == [];
    } else if |items| == 2 {
      assert items[1..] == [items[1]] && items[1..][1..] == [];
    }
  }

  lemma {:induction false} TargetsBounded(items: seq<Allocation>)
    ensures forall i :: 0 <= i < |items| ==> items[i].target <= SumTargets(items)
  {
    if items != [] {
      TargetsBounded(items[1..]);
      assert forall i :: 0 < i < |items| ==> items[i] == items[1..][i - 1];
    }
  }

  // ---------- The quantity check ----------

  // What the validator allows a quantity to be after an edit: whole increments, and a cost
  // that does not exceed the target by any fraction of a cent.
  predicate WithinTarget(a: Allocation) {
    a.quantity * a.unitPrice <= a.target * CENT
  }

  lemma QuantityAllowedExactly(a: Allocation)
    requires a.quantity % a.listing.increment == 0
    ensures QuantityAllowed(a, true) <==> WithinTarget(a)
  {
    var inc, price := a.listing.increment, a.unitPrice;
    var steps := a.quantity / inc;
    DivMod(a.quantity, inc);
    PositiveProduct(price, inc);
    FloorIsGreatest(a.target * CENT, price * inc, steps);
    StepsCost(steps, price, inc);
    var most := AffordableSteps(a.target, price, inc);
    MultiplesApart(steps, most, inc);
  }

  lemma StepsCost(steps: int, price: int, inc: int)
    ensures steps * inc * price == steps * (price * inc)
  {
  }

  // A cost that rounds to at most the target may still exceed it, by at most half a cent.
  lemma WithinTargetPasses(a: Allocation)
    ensures WithinTarget(a) ==> Cost(a.quantity, a.unitPrice) <= a.target
    ensures Cost(a.quantity, a.unitPrice) <= a.target ==>
              2 * (a.quantity * a.unitPrice - a.target * CENT) <= CENT
  {
    HalfEvenNearest(a.quantity * a.unitPrice, CENT);
  }

  // A hand-entered quantity that recalculation lets through is refused by the validator
  // exactly when its cost exceeds the target by a fraction of a cent.
  lemma SubCentExcess(a: Allocation)
    requires CheckPurchase(a).Ok?
    ensures !QuantityAllowed(a, true)
       <==> 0 < a.quantity * a.unitPrice - a.target * CENT <= CENT / 2
  {
    QuantityAllowedExactly(a);
    WithinTargetPasses(a);
  }

  // A derived quantity is the greatest multiple of the increment affordable at the target.
  lemma DerivedQuantityIsGreatest(target: nat, price: Pos, inc: Pos)
    ensures var q := AffordableQuantity(target, price, inc);
            && q % inc == 0
            && q * price <= target * CENT < q * price + price * inc
            && forall k: nat :: k * inc * price <= target * CENT ==> k * inc <= q
  {
    var steps, q := AffordableSteps(target, price, inc), AffordableQuantity(target, price, inc);
    MultipleHasNoRest(steps, inc);
    PositiveProduct(price, inc);
    DivMod(target * CENT, price * inc);
    StepsCost(steps, price, inc);
    forall k: nat | k * inc * price <= target * CENT
      ensures k * inc <= q
    {
      StepsCost(k, price, inc);
      FloorIsGreatest(target * CENT, price * inc, k);
      MulMonotone(k, steps, inc);
    }
  }

  lemma MultipleHasNoRest(k: nat, d: Pos)
    ensures k * d % d == 0
  {
    DivMod(k * d, d);
    FloorIsGreatest(k * d, d, k);
    MultiplesApart(k, k * d / d, d);
  }

  // It passes both the recalculation check and the strict validator, and leaves less than one
  // increment's cost plus half a cent.
  lemma DerivedQuantityPasses(a: Allocation)
    requires a.quantity == AffordableQuantity(a.target, a.unitPrice, a.listing.increment)
    ensures CheckPurchase(a).Ok? && QuantityAllowed(a, false)
    ensures 2 * (CENT * (a.target - Cost(a.quantity, a.unitPrice))) < 2 * (a.unitPrice * a.listing.increment) + CENT
  {
    DerivedQuantityIsGreatest(a.target, a.unitPrice, a.listing.increment);
    WithinTargetPasses(a);
    LeftOver(a.quantity * a.unitPrice, a.target, a.unitPrice * a.listing.increment);
  }

  lemma LeftOver(exact: nat, target: nat, step: int)
    requires target * CENT < exact + step
    ensures 2 * (CENT * (target - HalfEven(exact, CENT))) < 2 * step + CENT
  {
    HalfEvenNearest(exact, CENT);
  }

  // ---------- Exactly which plans are accepted ----------

  predicate Consistent(items: seq<Allocation>, catalogue: Catalogue) {
    && DistinctInstruments(items) && PrioritiesOk(items)
    && Curated(items, catalogue) && MetadataMatches(items, catalogue)
  }

  predicate Acceptable(p: Plan, catalogue: Catalogue, now: int) {
    var items, confirmed := p.allocations, SumTargets(p.allocations);
    && 1 <= |items| <= MAX_ITEMS
    && 1 <= confirmed
    && Consistent(items, catalogue)
    && (forall i :: 0 <= i < |items| ==> ItemAcceptable(items[i], now))
    && SharesTolerable(items, confirmed)
    && !ResidueNegative(items, confirmed)
  }

  predicate ItemAcceptable(a: Allocation, now: int) {
    a.observedAt <= now + CLOCK_SKEW && a.quantity % a.listing.increment == 0 && WithinTarget(a)
  }

  // The validator's verdict on one settled item.
  lemma SettledItemCheck(a: Allocation, percentage: int, confirmed: Pos, drift: int, now: int)
    requires confirmed * percentage == WHOLE * a.target + drift
    requires CheckPurchase(a).Ok?
    ensures CheckItem(Settle(a, percentage), confirmed, now, true).Ok?
       <==> ItemAcceptable(a, now) && Tolerable(drift, a.target)
  {
    TargetCheckByDrift(a.target, confirmed * percentage, drift);
    QuantityAllowedExactly(a);
  }

  // The drift of item i's final percentage.
  function DriftAt(items: seq<Allocation>, confirmed: Pos, i: nat): int
    requires i < |items|
  {
    if i < |items| - 1 then Drift(items[i].target, confirmed) else -SumDrifts(items[..i], confirmed)
  }

  lemma PercentageDrift(items: seq<Allocation>, confirmed: Pos, i: nat)
    requires i < |items| && confirmed == SumTargets(items)
    ensures confirmed * PercentageAt(items, confirmed, 0, i) == WHOLE * items[i].target + DriftAt(items, confirmed, i)
  {
    if i < |items| - 1 {
      ShareDrift(items[i].target, confirmed);
    } else {
      SumSharesDrift(items[..i], confirmed);
      SumTargetsSplit(items, i);
      assert items[i..] == [items[i]];
      assert SumTargets([items[i]]) == items[i].target;
      Distribute(confirmed, WHOLE, -SumShares(items[..i], confirmed));
      assert confirmed * -SumShares(items[..i], confirmed) == -(confirmed * SumShares(items[..i], confirmed));
    }
  }

  lemma {:induction false} SumTargetsSplit(items: seq<Allocation>, k: nat)
    requires k <= |items|
    ensures SumTargets(items) == SumTargets(items[..k]) + SumTargets(items[k..])
  {
    if k == 0 {
      assert items[0..] == items;
    } else {
      SumTargetsSplit(items[1..], k - 1);
      assert items[..k][1..] == items[1..][..k - 1];
      assert items[k..] == items[1..][k - 1..];
    }
  }

  // The heart of the acceptance theorem: the item loop of the validator on the settled items.
  lemma SettledItemsCheck(items: seq<Allocation>, now: int)
    requires 1 <= |items| && 1 <= SumTargets(items) && AllCheck(items)
    ensures var settled := SettleItems(items, SumTargets(items), 0);
            && settled.Ok?
            && (CheckItems(settled.value, SumTargets(items), now, true).Ok?
                <==> (forall i :: 0 <= i < |items| ==> ItemAcceptable(items[i], now))
                     && SharesTolerable(items, SumTargets(items)))
  {
    var confirmed: Pos := SumTargets(items);
    SettleItemsAt(items, confirmed, 0);
    var settled := SettleItems(items, confirmed, 0).value;
    CheckItemsAll(settled, confirmed, now, true);
    forall i | 0 <= i < |items|
      ensures CheckItem(settled[i], confirmed, now, true).Ok?
         <==> ItemAcceptable(items[i], now) && Tolerable(DriftAt(items, confirmed, i), items[i].target)
    {
      PercentageDrift(items, confirmed, i);
      SettledItemCheck(items[i], PercentageAt(items, confirmed, 0, i), confirmed, DriftAt(items, confirmed, i), now);
    }
    SharesTolerableAt(items, confirmed);
  }

  lemma SharesTolerableAt(items: seq<Allocation>, confirmed: Pos)
    requires items != []
    ensures SharesTolerable(items, confirmed)
       <==> forall i :: 0 <= i < |items| ==> Tolerable(DriftAt(items, confirmed, i), items[i].target)
  {
    var last := |items| - 1;
    assert DriftAt(items, confirmed, last) == -SumDrifts(items[..last], confirmed);
  }

  lemma SettledKeepsQuotes(items: seq<Allocation>, confirmed: Pos)
    requires AllCheck(items)
    ensures SettleItems(items, confirmed, 0).Ok?
    ensures var settled := SettleItems(items, confirmed, 0).value;
            && |settled| == |items|
            && forall i :: 0 <= i < |items| ==>
                 && settled[i].instrument == items[i].instrument
                 && settled[i].priority == items[i].priority
                 && settled[i].listing == items[i].listing
                 && settled[i].percentage == PercentageAt(items, confirmed, 0, i)
  {
    SettleItemsAt(items, confirmed, 0);
  }

  lemma SettledFieldsInRange(p: Plan)
    requires p.allocations != [] && 1 <= SumTargets(p.allocations) && AllCheck(p.allocations)
    ensures SettleItems(p.allocations, SumTargets(p.allocations), 0).Ok?
    ensures FieldsInRange(WithItems(p, SettleItems(p.allocations, SumTargets(p.allocations), 0).value))
       <==> |p.allocations| <= MAX_ITEMS && !ResidueNegative(p.allocations, SumTargets(p.allocations))
  {
    var items := p.allocations;
    var confirmed: Pos := SumTargets(items);
    SettledKeepsQuotes(items, confirmed);
    SettledSums(items, confirmed, 0);
    var settled := SettleItems(items, confirmed, 0).value;
    if |items| <= MAX_ITEMS {
      ResidueInRange(items, confirmed);
      var last := |items| - 1;
      assert settled[last].percentage == PercentageAt(items, confirmed, 0, last);
    }
  }

  // Recalculation followed by validation accepts exactly the acceptable plans.
  lemma AcceptedExactly(p: Plan, catalogue: Catalogue, now: int)
    ensures Recalculation(p, catalogue, now).Ok? <==> Acceptable(p, catalogue, now)
  {
    var items := p.allocations;
    forall i | 0 <= i < |items|
      ensures ItemAcceptable(items[i], now) ==> CheckPurchase(items[i]).Ok?
    {
      WithinTargetPasses(items[i]);
    }
    if items == [] {
    } else if SumTargets(items) == 0 {
      // Either the share of a zero total is undefined, or the single item's total is refused.
      var settled := SettleItems(items, 0, 0);
      if settled.Ok? {
        assert WithItems(p, settled.value).confirmed == 0;
      }
    } else {
      SettleItemsAt(items, SumTargets(items), 0);
      if AllCheck(items) {
        AcceptedWhenSettled(p, catalogue, now);
      }
    }
  }

  lemma AcceptedWhenSettled(p: Plan, catalogue: Catalogue, now: int)
    requires p.allocations != [] && 1 <= SumTargets(p.allocations) && AllCheck(p.allocations)
    ensures Recalculation(p, catalogue, now).Ok? <==> Acceptable(p, catalogue, now)
  {
    var items := p.allocations;
    var confirmed: Pos := SumTargets(items);
    SettledKeepsQuotes(items, confirmed);
    SettledSums(items, confirmed, 0);
    SettledFieldsInRange(p);
    SettledItemsCheck(items, now);
    var settled := SettleItems(items, confirmed, 0).value;
    SameQuotes(items, settled, catalogue);
    ValidExactly(WithItems(p, settled), catalogue, now);
  }

  // What the validator asks of a plan whose totals are exact.
  lemma ValidExactly(p: Plan, catalogue: Catalogue, now: int)
    requires p.saved && SumPercentages(p.allocations) == WHOLE
    requires p.totalAllocated == SumActual(p.allocations)
    requires p.confirmed == p.totalAllocated + p.totalRemainder
    ensures Validate(p, catalogue, now, true).Ok?
       <==> FieldsInRange(p) && Consistent(p.allocations, catalogue)
            && CheckItems(p.allocations, p.confirmed, now, true).Ok?
  {
  }

  // Settling touches none of what these checks look at.
  lemma SameQuotes(items: seq<Allocation>, settled: seq<Allocation>, catalogue: Catalogue)
    requires |settled| == |items|
    requires forall i :: 0 <= i < |items| ==>
               && settled[i].instrument == items[i].instrument
               && settled[i].priority == items[i].priority
               && settled[i].listing == items[i].listing
    ensures Consistent(settled, catalogue) <==> Consistent(items, catalogue)
  {
    assert DistinctInstruments(settled) <==> DistinctInstruments(items);
    assert PrioritiesOk(settled) <==> PrioritiesOk(items);
    assert Curated(settled, catalogue) <==> Curated(items, catalogue);
  }

  // A plan the validator accepts can get there: 0.01 buys 0.01 units at 1.00, and an edit to
  // 0.01004 units costs a sub-cent more.
  lemma SubCentIsReached(gold: Listing, catalogue: Catalogue, now: int)
    requires gold.increment == 1 && 0 in catalogue && catalogue[0] == gold
    ensures exists p :: Validate(p, catalogue, now, false).Ok?
                     && EditPlan(p, 0, Changes(None, Some(1_004_000), None), catalogue, now) == Err(QuantityStep)
  {
    var item := Allocation(0, "", gold, WHOLE, 1, 100_000_000, 1_000_000, 1, 0, now, "", Live, None, []);
    var p := Plan(1, "EGP", [item], 1, 0, "", true);
    SumOfOne(item);
    CheckItemsAll([item], 1, now, false);
    assert Validate(p, catalogue, now, false).Ok?;
    var edited := item.(quantity := 1_004_000);
    assert EditedItems([item], 0, Changes(None, Some(1_004_000), None), now) == [edited];
    SumOfOne(edited);
    assert Cost(1_004_000, 100_000_000) == 1;
    var settled := Settle(edited, WHOLE);
    assert CheckPurchase(edited).Ok? && [edited][1..] == [] && [settled] + [] == [settled];
    assert SettleItems([edited], 1, 0) == Ok([settled]);
    SumOfOne(settled);
    assert !QuantityAllowed(settled, true);
    assert CheckItem(settled, 1, now, true) == Err(QuantityStep);
  }

  lemma SumOfOne(a: Allocation)
    ensures SumTargets([a]) == a.target && SumPercentages([a]) == a.percentage && SumActual([a]) == a.actual
  {
    assert [a][1..] == [];
  }

  // ---------- Where the division fails ----------

  // Recalculation divides zero by zero exactly when a plan of several items has only zero targets.
  lemma DivisionUndefinedExactly(p: Plan, catalogue: Catalogue, now: int)
    ensures Recalculation(p, catalogue, now) == Err(DivisionUndefined)
       <==> |p.allocations| >= 2 && SumTargets(p.allocations) == 0
  {
    if |p.allocations| == 1 || 1 <= SumTargets(p.allocations) {
      SettlingNeverDivides(p.allocations, SumTargets(p.allocations), 0);
    }
    var settled := SettleItems(p.allocations, SumTargets(p.allocations), 0);
    if p.allocations != [] && settled.Ok? {
      var q := WithItems(p, settled.value);
      CheckingNeverDivides(q.allocations, q.confirmed, now);
    }
  }

  lemma {:induction false} SettlingNeverDivides(items: seq<Allocation>, confirmed: nat, used: int)
    requires |items| == 1 || 1 <= confirmed
    ensures SettleItems(items, confirmed, used) != Err(DivisionUndefined)
  {
    if |items| > 1 {
      SettlingNeverDivides(items[1..], confirmed, used + PercentageOf(items, confirmed, used).value);
    }
  }

  lemma {:induction false} CheckingNeverDivides(items: seq<Allocation>, confirmed: int, now: int)
    ensures CheckItems(items, confirmed, now, true) != Err(DivisionUndefined)
  {
    if items != [] {
      CheckingNeverDivides(items[1..], confirmed, now);
    }
  }

  // A plan the validator accepts can get there: 0.01 split evenly over two items rounds both
  // targets to zero, and then editing either price divides zero by zero.
  lemma AcceptedPlanCanDivide(gold: Listing, catalogue: Catalogue, now: int, price: Pos)
    requires 0 in catalogue && 1 in catalogue && catalogue[0] == catalogue[1] == gold
    ensures exists p :: Validate(p, catalogue, now, false).Ok?
                     && EditPlan(p, 0, Changes(None, None, Some(price)), catalogue, now) == Err(DivisionUndefined)
  {
    var item := Allocation(0, "", gold, 5000, 0, 100_000_000, 0, 0, 0, now, "", Live, None, []);
    var items := [item, item.(instrument := 1)];
    var p := Plan(1, "EGP", items, 0, 1, "", true);
    SumsOfTwo(items[0], items[1]);
    CheckItemsAll(items, 1, now, false);
    assert ExpectedTarget(1, 5000) == 0;
    var edited := EditedItems(items, 0, Changes(None, None, Some(price)), now);
    assert edited == [edited[0], items[1]] && edited[0].target == 0;
    SumsOfTwo(edited[0], items[1]);
    DivisionUndefinedExactly(p.(allocations := edited), catalogue, now);
    assert Validate(p, catalogue, now, false).Ok?;
  }

  lemma SumsOfTwo(a: Allocation, b: Allocation)
    ensures SumTargets([a, b]) == a.target + b.target
    ensures SumPercentages([a, b]) == a.percentage + b.percentage
    ensures SumActual([a, b]) == a.actual + b.actual
  {
    SumsOfCons(b, []);
    SumsOfCons(a, [b]);
    assert [a] + ([b] + []) == [a, b];
  }

  // ---------- Where the percentages cannot fail ----------

  // Up to 250.00 no plan of three items is refused for its percentages, up to 500.00 no plan of
  // two, and a plan of one item never is.
  lemma SmallPlansTolerable(items: seq<Allocation>)
    requires 1 <= |items| <= MAX_ITEMS && 1 <= SumTargets(items)
    requires |items| == 1 || (|items| == 2 && SumTargets(items) <= 50000) || SumTargets(items) <= 25000
    ensures SharesTolerable(items, SumTargets(items))
  {
    var confirmed: Pos := SumTargets(items);
    var shares := items[..|items| - 1];
    if |items| == 2 {
      DriftBounded(items[0].target, confirmed);
      assert shares[1..] == [];
    } else if |items| == 3 {
      DriftBounded(items[0].target, confirmed);
      DriftBounded(items[1].target, confirmed);
      assert shares[1..] == [items[1]];
      assert SumDrifts([items[1]], confirmed) == Drift(items[1].target, confirmed);
    }
  }

  // At 250.00 and 500.00 themselves no share lies on a half basis point.
  lemma DriftBounded(target: nat, confirmed: Pos)
    ensures 2 * Abs(Drift(target, confirmed)) <= confirmed
    ensures confirmed == 25000 || confirmed == 50000 ==> 2 * Abs(Drift(target, confirmed)) < confirmed
  {
    DivMod(target * WHOLE, confirmed);
    if confirmed == 25000 {
      assert 2 * (target * 10000 % 25000) != 25000;
    } else if confirmed == 50000 {
      assert 2 * (target * 10000 % 50000) != 50000;
    }
  }

  // A recalculated percentage is its item's share to half a basis point, and the last one to as
  // many halves as there are items before it: one whole basis point in a plan of three.
  lemma PercentagesNearShares(p: Plan, catalogue: Catalogue, now: int, i: nat)
    requires Recalculation(p, catalogue, now).Ok? && i < |p.allocations|
    ensures var q, last := Recalculation(p, catalogue, now).value, |p.allocations| - 1;
            && |q.allocations| == |p.allocations|
            && 2 * Abs(q.confirmed * q.allocations[i].percentage - WHOLE * q.allocations[i].target)
                 <= q.confirmed * (if i < last then 1 else last)
  {
    var items, confirmed := p.allocations, SumTargets(p.allocations);
    RecalculationConserves(p, catalogue, now);
    SettleItemsAt(items, confirmed, 0);
    PercentageNearShare(items, confirmed, i);
  }

  lemma PercentageNearShare(items: seq<Allocation>, confirmed: Pos, i: nat)
    requires i < |items| && confirmed == SumTargets(items)
    ensures 2 * Abs(confirmed * PercentageAt(items, confirmed, 0, i) - WHOLE * items[i].target)
         <= confirmed * (if i < |items| - 1 then 1 else i)
  {
    PercentageDrift(items, confirmed, i);
    if i < |items| - 1 {
      DriftBounded(items[i].target, confirmed);
    } else {
      SumDriftsBounded(items[..i], confirmed);
    }
  }

  lemma {:induction false} SumDriftsBounded(items: seq<Allocation>, confirmed: Pos)
    ensures 2 * Abs(SumDrifts(items, confirmed)) <= confirmed * |items|
  {
    if items != [] {
      DriftBounded(items[0].target, confirmed);
      SumDriftsBounded(items[1..], confirmed);
      Distribute(confirmed, 1, |items| - 1);
    }
  }

  // One cent above either bound there are targets no edit can be saved with.
  lemma BoundsAreSharp(p: Plan, catalogue: Catalogue, now: int)
    ensures Targets(p.allocations) == [24998, 25003] ==> Recalculation(p, catalogue, now).Err?
    ensures Targets(p.allocations) == [6249, 6249, 12503] ==> Recalculation(p, catalogue, now).Err?
  {
    AcceptedExactly(p, catalogue, now);
    if Targets(p.allocations) == [24998, 25003] {
      TwoAboveBound(p.allocations);
    } else if Targets(p.allocations) == [6249, 6249, 12503] {
      ThreeAboveBound(p.allocations);
    }
  }

  lemma TwoAboveBound(items: seq<Allocation>)
    requires Targets(items) == [24998, 25003]
    ensures SumTargets(items) == 50001 && !SharesTolerable(items, 50001)
  {
    var ts := Targets(items);
    assert items[0].target == ts[0] && items[1].target == ts[1];
    TotalsOfFew(items);
    assert items[..1] == [items[0]];
    assert SumDrifts([items[0]], 50001) == Drift(24998, 50001) == 25000;
  }

  lemma ThreeAboveBound(items: seq<Allocation>)
    requires Targets(items) == [6249, 6249, 12503]
    ensures SumTargets(items) == 25001 && !SharesTolerable(items, 25001)
  {
    var ts := Targets(items);
    assert items[0].target == ts[0] && items[1].target == ts[1] && items[2].target == ts[2];
    TotalsOfFew(items);
    assert items[..2][1..] == [items[1]];
    assert SumDrifts([items[1]], 25001) == Drift(6249, 25001) == 12500;
  }

  // An even three-way split of 10000.00 is refused.
  lemma EvenSplitRejected(p: Plan, catalogue: Catalogue, now: int)
    requires Targets(p.allocations) == [333333, 333333, 333334]
    ensures Recalculation(p, catalogue, now).Err?
  {
    var items := p.allocations;
    var ts := Targets(items);
    assert items[0].target == ts[0] && items[1].target == ts[1] && items[2].target == ts[2];
    TotalsOfFew(items);
    assert Drift(333333, 1000000) == -330000;
    AcceptedExactly(p, catalogue, now);
  }

  // 0.01 and 199.99 round up to 0.01 % and 100.00 %, which leaves -0.01 % for the item of nothing.
  lemma ResidueIsReached(p: Plan, catalogue: Catalogue, now: int)
    requires Targets(p.allocations) == [1, 19999, 0]
    ensures SumTargets(p.allocations) == 20000 && PercentageAt(p.allocations, 20000, 0, 2) == -1
    ensures Recalculation(p, catalogue, now).Err?
  {
    var items := p.allocations;
    var ts := Targets(items);
    assert items[0].target == ts[0] && items[1].target == ts[1] && items[2].target == ts[2];
    TotalsOfFew(items);
    SharesOfFew(items[..2], 20000);
    assert ResidueNegative(items, 20000);
    AcceptedExactly(p, catalogue, now);
  }

  // With a fourth item the last percentage could be negative although every target is positive;
  // ResidueInRange shows that three items are the most for which it cannot.
  lemma FourItemsOvershoot(items: seq<Allocation>)
    requires Targets(items) == [1, 1, 19997, 1]
    ensures SumTargets(items) == 20000 && PercentageAt(items, 20000, 0, 3) == -1
  {
    var ts := Targets(items);
    assert items[0].target == ts[0] && items[1].target == ts[1] && items[2].target == ts[2] && items[3].target == ts[3];
    assert items[1..][1..] == items[2..];
    TotalsOfFew(items[2..]);
    var shares := items[..3];
    assert shares[1..] == [items[1], items[2]];
    assert [items[1], items[2]][1..] == [items[2]];
    assert SumShares([items[2]], 20000) == Share(19997, 20000) == 9999;
    assert Share(1, 20000) == 1;
    assert SumShares(shares, 20000) == Share(1, 20000) + Share(1, 20000) + Share(19997, 20000);
  }

  function Targets(items: seq<Allocation>): seq<nat> {
    seq(|items|, i requires 0 <= i < |items| => items[i].target)
  }

  lemma TotalsOfFew(items: seq<Allocation>)
    ensures |items| == 2 ==> SumTargets(items) == items[0].target + items[1].target
    ensures |items| == 3 ==> SumTargets(items) == items[0].target + items[1].target + items[2].target
  {
    if |items| == 2 {
      assert items[1..] == [items[1]];
      assert SumTargets([items[1]]) == items[1].target;
    } else if |items| == 3 {
      SumsOfThree(items[0], items[1], items[2]);
      assert items == [items[0], items[1], items[2]];
    }
  }
}

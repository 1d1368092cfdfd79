/**
 What the validator checks, with its amounts and tolerances outright: a payload is accepted exactly
 when all of it holds.
 */
module PlanValidation {
  import opened Wrappers
  import opened Rounding
  import opened PlanModel
  import opened PlanAcceptance

  // r is n / d to the nearest whole number, a half going to the even one.
  predicate NearestEven(r: int, n: int, d: int) {
    var e := 2 * (r * d - n);
    -d <= e <= d && ((e == d || e == -d) ==> r % 2 == 0)
  }

  // Money counts cents; quantity times price counts 1e-16, so that a cent is 1e14 of it.
  lemma CostExactly(quantity: nat, price: Pos, c: int)
    ensures c == Cost(quantity, price) <==> NearestEven(c, quantity * price, 100_000_000_000_000)
  {
    HalfEvenNearest(quantity * price, CENT);
    if NearestEven(c, quantity * price, CENT) {
      HalfEvenUnique(quantity * price, CENT, c);
    }
  }

  lemma ExpectedTargetExactly(confirmed: int, percentage: int, t: int)
    ensures t == ExpectedTarget(confirmed, percentage) <==> NearestEven(t, confirmed * percentage, 10_000)
  {
    HalfEvenNearest(confirmed * percentage, WHOLE);
    if NearestEven(t, confirmed * percentage, WHOLE) {
      HalfEvenUnique(confirmed * percentage, WHOLE, t);
    }
  }

  // One item: its quote is at most five minutes ahead; its target is within two cents of its rounded
  // share; its quantity is whole increments that fit in the target, and for a strict check as many
  // as fit; its amount is within two cents of its rounded cost, and its remainder of what is left.
  predicate QuoteHolds(a: Allocation, now: int) {
    a.observedAt <= now + 300
  }

  ghost predicate TargetHolds(a: Allocation, confirmed: int) {
    exists t :: NearestEven(t, confirmed * a.percentage, 10_000) && -2 <= a.target - t <= 2
  }

  predicate QuantityHolds(a: Allocation, allowUnder: bool) {
    var inc, cost, budget := a.listing.increment, a.quantity * a.unitPrice, a.target * 100_000_000_000_000;
    a.quantity % inc == 0 && cost <= budget && (allowUnder || budget < cost + a.unitPrice * inc)
  }

  ghost predicate AmountHolds(a: Allocation) {
    exists c :: NearestEven(c, a.quantity * a.unitPrice, 100_000_000_000_000) && -2 <= a.actual - c <= 2
  }

  predicate RemainderHolds(a: Allocation) {
    -2 <= a.remainder - (a.target - a.actual) <= 2
  }

  ghost predicate ItemHolds(a: Allocation, confirmed: int, now: int, allowUnder: bool) {
    QuoteHolds(a, now) && TargetHolds(a, confirmed) && QuantityHolds(a, allowUnder) && AmountHolds(a)
      && RemainderHolds(a)
  }

  // The first of them that does not hold is the error.
  lemma ItemExactly(a: Allocation, confirmed: int, now: int, allowUnder: bool)
    ensures var r := CheckItem(a, confirmed, now, allowUnder);
            && (r.Ok? <==> ItemHolds(a, confirmed, now, allowUnder))
            && (r == Err(FutureQuote) <==> !QuoteHolds(a, now))
            && (r == Err(TargetMismatch) <==> QuoteHolds(a, now) && !TargetHolds(a, confirmed))
            && (r == Err(QuantityStep) <==>
                  QuoteHolds(a, now) && TargetHolds(a, confirmed) && !QuantityHolds(a, allowUnder))
            && (r == Err(AllocatedMismatch) <==>
                  QuoteHolds(a, now) && TargetHolds(a, confirmed) && QuantityHolds(a, allowUnder) && !AmountHolds(a))
  {
    TargetExactly(a, confirmed);
    AmountExactly(a);
    QuantityExactly(a, allowUnder);
  }

  lemma TargetExactly(a: Allocation, confirmed: int)
    ensures TargetHolds(a, confirmed) <==> Abs(a.target - ExpectedTarget(confirmed, a.percentage)) <= TOLERANCE
  {
    var t := ExpectedTarget(confirmed, a.percentage);
    ExpectedTargetExactly(confirmed, a.percentage, t);
    forall x
      ensures NearestEven(x, confirmed * a.percentage, 10_000) <==> x == t
    {
      ExpectedTargetExactly(confirmed, a.percentage, x);
    }
  }

  lemma AmountExactly(a: Allocation)
    ensures AmountHolds(a) <==> Abs(a.actual - Cost(a.quantity, a.unitPrice)) <= TOLERANCE
  {
    var c := Cost(a.quantity, a.unitPrice);
    CostExactly(a.quantity, a.unitPrice, c);
    forall x
      ensures NearestEven(x, a.quantity * a.unitPrice, 100_000_000_000_000) <==> x == c
    {
      CostExactly(a.quantity, a.unitPrice, x);
    }
  }

  lemma QuantityExactly(a: Allocation, allowUnder: bool)
    ensures QuantityAllowed(a, allowUnder) <==> QuantityHolds(a, allowUnder)
  {
    var inc, price := a.listing.increment, a.unitPrice;
    DerivedQuantityIsGreatest(a.target, price, inc);
    var most := AffordableQuantity(a.target, price, inc);
    if a.quantity % inc == 0 {
      QuantityAllowedExactly(a);
      GreatestIsUnique(a.quantity, most, price, inc, a.target * CENT);
    }
  }

  // Of the multiples of the increment only one fits while the next does not.
  lemma GreatestIsUnique(q: nat, most: nat, price: Pos, inc: Pos, budget: int)
    requires q % inc == 0 && most % inc == 0
    requires most * price <= budget < most * price + price * inc
    ensures q == most <==> q * price <= budget < q * price + price * inc
  {
    DivMod(q, inc);
    DivMod(most, inc);
    MultiplesApart(q / inc, most / inc, inc);
    if q < most {
      MulMonotone(q + inc, most, price);
    } else if most < q {
      MulMonotone(most + inc, q, price);
    }
  }

  // The whole payload, other than the items' own checks.
  predicate FieldsHold(p: Plan) {
    && 1 <= p.confirmed && 0 <= p.totalAllocated && 0 <= p.totalRemainder && 1 <= |p.allocations| <= 3
    && forall i :: 0 <= i < |p.allocations| ==>
         var a := p.allocations[i]; 0 <= a.percentage <= 10_000 && 0 <= a.actual && 0 <= a.remainder
  }

  predicate Unique(items: seq<Allocation>) {
    forall i, j :: 0 <= i < j < |items| ==> items[i].instrument != items[j].instrument
  }

  predicate PrioritiesHold(items: seq<Allocation>) {
    (exists i :: 0 <= i < |items| && items[i].priority.Some?) ==>
      forall i, j :: 0 <= i < |items| && 0 <= j < |items| ==>
        items[i].priority.Some? && (i != j ==> items[i].priority != items[j].priority)
  }

  predicate AllocatedHolds(p: Plan) {
    -2 <= p.totalAllocated - SumActual(p.allocations) <= 2
  }

  predicate CashHolds(p: Plan) {
    -2 <= p.confirmed - p.totalAllocated - p.totalRemainder <= 2
  }

  predicate TotalsHold(p: Plan) {
    AllocatedHolds(p) && CashHolds(p)
  }

  predicate Listed(items: seq<Allocation>, catalogue: Catalogue) {
    forall i :: 0 <= i < |items| ==> items[i].instrument in catalogue
  }

  predicate ListingsHold(items: seq<Allocation>, catalogue: Catalogue) {
    forall i :: 0 <= i < |items| && items[i].instrument in catalogue ==>
      items[i].listing == catalogue[items[i].instrument]
  }

  // What the validator looks at before the items, and the items.
  predicate HeadHolds(p: Plan) {
    && FieldsHold(p) && p.saved && Unique(p.allocations) && PrioritiesHold(p.allocations)
    && SumPercentages(p.allocations) == 10_000
  }

  ghost predicate ItemsHold(p: Plan, now: int, allowUnder: bool) {
    forall i :: 0 <= i < |p.allocations| ==> ItemHolds(p.allocations[i], p.confirmed, now, allowUnder)
  }

  lemma ChecksAgree(p: Plan, catalogue: Catalogue, now: int, allowUnder: bool)
    ensures FieldsInRange(p) <==> FieldsHold(p)
    ensures DistinctInstruments(p.allocations) <==> Unique(p.allocations)
    ensures PrioritiesOk(p.allocations) <==> PrioritiesHold(p.allocations)
    ensures CheckItems(p.allocations, p.confirmed, now, allowUnder).Ok? <==> ItemsHold(p, now, allowUnder)
    ensures Curated(p.allocations, catalogue) <==> Listed(p.allocations, catalogue)
    ensures Curated(p.allocations, catalogue) ==>
              (MetadataMatches(p.allocations, catalogue) <==> ListingsHold(p.allocations, catalogue))
  {
    var items := p.allocations;
    assert forall i :: 0 <= i < |items| ==>
      (ItemFieldsInRange(items[i])
       <==> 0 <= items[i].percentage <= 10_000 && 0 <= items[i].actual && 0 <= items[i].remainder);
    PrioritiesAgree(items);
    CheckItemsAll(items, p.confirmed, now, allowUnder);
    forall i | 0 <= i < |items|
      ensures CheckItem(items[i], p.confirmed, now, allowUnder).Ok?
           <==> ItemHolds(items[i], p.confirmed, now, allowUnder)
    {
      ItemExactly(items[i], p.confirmed, now, allowUnder);
    }
  }

  lemma PrioritiesAgree(items: seq<Allocation>)
    ensures PrioritiesOk(items) <==> PrioritiesHold(items)
  {
    if PrioritiesHold(items) && exists i :: 0 <= i < |items| && items[i].priority.Some? {
      assert forall i :: 0 <= i < |items| ==> items[i].priority.Some?;
    }
  }

  // A payload is accepted, as it is, exactly when all of it holds; otherwise the first part that does
  // not is the error, in the order of the fields, the items, the totals and the catalogue.
  lemma ValidExactly(p: Plan, catalogue: Catalogue, now: int, allowUnder: bool)
    ensures var r, items := Validate(p, catalogue, now, allowUnder), p.allocations;
            var checked := HeadHolds(p) && ItemsHold(p, now, allowUnder);
            && (r == Ok(p) <==> checked && TotalsHold(p) && Listed(items, catalogue) && ListingsHold(items, catalogue))
            && (r.Ok? ==> r == Ok(p))
            && (r == Err(TotalAllocatedMismatch) <==> checked && !AllocatedHolds(p))
            && (r == Err(TotalRemainderMismatch) <==> checked && AllocatedHolds(p) && !CashHolds(p))
            && (r == Err(NotCurated) <==> checked && TotalsHold(p) && !Listed(items, catalogue))
            && (r == Err(MetadataMismatch) <==>
                  checked && TotalsHold(p) && Listed(items, catalogue) && !ListingsHold(items, catalogue))
  {
    ChecksAgree(p, catalogue, now, allowUnder);
    ItemErrors(p.allocations, p.confirmed, now, allowUnder);
  }

  lemma RefusalsExactly(p: Plan, catalogue: Catalogue, now: int, allowUnder: bool)
    ensures var r, items := Validate(p, catalogue, now, allowUnder), p.allocations;
            && (r == Err(InvalidField) <==> !FieldsHold(p))
            && (r == Err(NotSaved) <==> FieldsHold(p) && !p.saved)
            && (r == Err(DuplicateInstrument) <==> FieldsHold(p) && p.saved && !Unique(items))
            && (r == Err(BadPriorities) <==> FieldsHold(p) && p.saved && Unique(items) && !PrioritiesHold(items))
            && (r == Err(PercentageTotal) <==>
                  FieldsHold(p) && p.saved && Unique(items) && PrioritiesHold(items) && SumPercentages(items) != 10_000)
            && (HeadHolds(p) && !ItemsHold(p, now, allowUnder) ==>
                  r.Err? && exists i :: 0 <= i < |items| && IsFirstItem(p, i, now, allowUnder, r.error))
  {
    ChecksAgree(p, catalogue, now, allowUnder);
    ItemErrors(p.allocations, p.confirmed, now, allowUnder);
    FirstItem(p.allocations, p, 0, now, allowUnder);
  }

  // Item i is the first the check refuses, with this error.
  ghost predicate IsFirstItem(p: Plan, i: nat, now: int, allowUnder: bool, e: PlanError)
    requires i < |p.allocations|
  {
    && CheckItem(p.allocations[i], p.confirmed, now, allowUnder) == Err(e)
    && forall j :: 0 <= j < i ==> ItemHolds(p.allocations[j], p.confirmed, now, allowUnder)
  }

  lemma {:induction false} FirstItem(items: seq<Allocation>, p: Plan, from: nat, now: int, allowUnder: bool)
    requires from <= |p.allocations| && items == p.allocations[from..]
    requires forall j :: 0 <= j < from ==> ItemHolds(p.allocations[j], p.confirmed, now, allowUnder)
    ensures var r := CheckItems(items, p.confirmed, now, allowUnder);
            r.Err? ==> exists i :: 0 <= i < |p.allocations| && IsFirstItem(p, i, now, allowUnder, r.error)
    decreases |items|
  {
    if items != [] {
      ItemExactly(items[0], p.confirmed, now, allowUnder);
      if CheckItem(items[0], p.confirmed, now, allowUnder).Ok? {
        FirstItem(items[1..], p, from + 1, now, allowUnder);
      } else {
        assert IsFirstItem(p, from, now, allowUnder, CheckItem(items[0], p.confirmed, now, allowUnder).error);
      }
    }
  }

  lemma {:induction false} ItemErrors(items: seq<Allocation>, confirmed: int, now: int, allowUnder: bool)
    ensures var r := CheckItems(items, confirmed, now, allowUnder);
            r.Err? ==> r.error == FutureQuote || r.error == TargetMismatch || r.error == QuantityStep
                       || r.error == AllocatedMismatch || r.error == RemainderMismatch
  {
    if items != [] {
      ItemErrors(items[1..], confirmed, now, allowUnder);
    }
  }
}

/**
 A saved investment plan and the checks every saved payload must pass.

 Units: money is in cents, a percentage in basis points (100.00 % is 10000), unit prices,
 quantities and purchase increments in units of 1e-8. The lower bounds the field parser
 enforces on targets, prices, quantities and increments are part of their types.
 */
module PlanModel {
  import opened Wrappers
  import opened Rounding

  type InstrumentId = nat

  const WHOLE := 10000
  const TOLERANCE := 2
  const MAX_ITEMS := 3
  const CLOCK_SKEW := 300

  // One cent, counted in the unit of quantity times price (1e-8 times 1e-8).
  const CENT := 100_000_000_000_000

  datatype Mode = Live | Mock | UserSupplied

  // What the catalogue says of an instrument, as far as a payload must repeat it.
  datatype Listing = Listing(code: string, assetClass: string, priceCurrency: string,
                             unit: string, priceType: string, increment: Pos)

  // The instruments that are active and whose product is active.
  type Catalogue = map<InstrumentId, Listing>

  datatype Allocation = Allocation(
    instrument: InstrumentId, displayName: string, listing: Listing,
    percentage: int, target: nat, unitPrice: Pos, quantity: nat, actual: int, remainder: int,
    observedAt: int, source: string, mode: Mode, priority: Option<int>, matchFactors: seq<string>)

  datatype Plan = Plan(confirmed: int, currency: string, allocations: seq<Allocation>,
                       totalAllocated: int, totalRemainder: int, disclaimer: string, saved: bool)

  datatype PlanError =
    | InvalidField | NotSaved | DuplicateInstrument | BadPriorities | PercentageTotal
    | FutureQuote | TargetMismatch | QuantityStep | AllocatedMismatch | RemainderMismatch
    | TotalAllocatedMismatch | TotalRemainderMismatch | NotCurated | MetadataMismatch
    | EmptyPlan | DivisionUndefined | OffIncrement | ExceedsTarget | UnknownInstrument
    | ChangedPlanData | ChangedInstruments | ChangedQuote

  // ---------- Sums over the items ----------

  function SumTargets(items: seq<Allocation>): nat {
    if items == [] then 0 else items[0].target + SumTargets(items[1..])
  }

  function SumPercentages(items: seq<Allocation>): int {
    if items == [] then 0 else items[0].percentage + SumPercentages(items[1..])
  }

  function SumActual(items: seq<Allocation>): int {
    if items == [] then 0 else items[0].actual + SumActual(items[1..])
  }

  function SumRemainders(items: seq<Allocation>): int {
    if items == [] then 0 else items[0].remainder + SumRemainders(items[1..])
  }

  // ---------- Amounts derived from other amounts ----------

  function ExpectedTarget(confirmed: int, percentage: int): int {
    HalfEven(confirmed * percentage, WHOLE)
  }

  // The purchase increments that fit in the target at this price, as a quantity.
  function AffordableQuantity(target: nat, price: Pos, increment: Pos): nat {
    AffordableSteps(target, price, increment) * increment
  }

  function AffordableSteps(target: nat, price: Pos, increment: Pos): nat {
    PositiveProduct(price, increment);
    DivMod(target * CENT, price * increment);
    target * CENT / (price * increment)
  }

  lemma PositiveProduct(a: Pos, b: Pos)
    ensures 1 <= a * b
  {
    MulMonotone(1, a, b);
  }

  function Cost(quantity: nat, price: Pos): int {
    HalfEven(quantity * price, CENT)
  }

  function Abs(x: int): nat {
    if x < 0 then -x else x
  }

  // ---------- The checks ----------

  predicate FieldsInRange(p: Plan) {
    && 1 <= p.confirmed && 0 <= p.totalAllocated && 0 <= p.totalRemainder
    && 1 <= |p.allocations| <= MAX_ITEMS
    && forall i :: 0 <= i < |p.allocations| ==> ItemFieldsInRange(p.allocations[i])
  }

  predicate ItemFieldsInRange(a: Allocation) {
    0 <= a.percentage <= WHOLE && 0 <= a.actual && 0 <= a.remainder
  }

  predicate DistinctInstruments(items: seq<Allocation>) {
    forall i, j :: 0 <= i < j < |items| ==> items[i].instrument != items[j].instrument
  }

  // Either no item states a priority, or all do and no two agree.
  predicate PrioritiesOk(items: seq<Allocation>) {
    || (forall i :: 0 <= i < |items| ==> items[i].priority.None?)
    || ((forall i :: 0 <= i < |items| ==> items[i].priority.Some?)
        && forall i, j :: 0 <= i < j < |items| ==> items[i].priority != items[j].priority)
  }

  predicate QuantityAllowed(a: Allocation, allowUnder: bool) {
    var most := AffordableQuantity(a.target, a.unitPrice, a.listing.increment);
    a.quantity == most || (allowUnder && a.quantity <= most && a.quantity % a.listing.increment == 0)
  }

  function CheckItem(a: Allocation, confirmed: int, now: int, allowUnder: bool): Result<(), PlanError> {
    if a.observedAt > now + CLOCK_SKEW then Err(FutureQuote)
    else if Abs(a.target - ExpectedTarget(confirmed, a.percentage)) > TOLERANCE then Err(TargetMismatch)
    else if !QuantityAllowed(a, allowUnder) then Err(QuantityStep)
    else if Abs(a.actual - Cost(a.quantity, a.unitPrice)) > TOLERANCE then Err(AllocatedMismatch)
    else if Abs(a.remainder - (a.target - a.actual)) > TOLERANCE then Err(RemainderMismatch)
    else Ok(())
  }

  // The first item that fails decides the error.
  function CheckItems(items: seq<Allocation>, confirmed: int, now: int, allowUnder: bool): Result<(), PlanError> {
    if items == [] then Ok(())
    else
      var _ :- CheckItem(items[0], confirmed, now, allowUnder);
      CheckItems(items[1..], confirmed, now, allowUnder)
  }

  predicate Curated(items: seq<Allocation>, catalogue: Catalogue) {
    forall i :: 0 <= i < |items| ==> items[i].instrument in catalogue
  }

  predicate MetadataMatches(items: seq<Allocation>, catalogue: Catalogue)
    requires Curated(items, catalogue)
  {
    forall i :: 0 <= i < |items| ==> items[i].listing == catalogue[items[i].instrument]
  }

  function Validate(p: Plan, catalogue: Catalogue, now: int, allowUnder: bool): Result<Plan, PlanError> {
    if !FieldsInRange(p) then Err(InvalidField)
    else if !p.saved then Err(NotSaved)
    else if !DistinctInstruments(p.allocations) then Err(DuplicateInstrument)
    else if !PrioritiesOk(p.allocations) then Err(BadPriorities)
    else if SumPercentages(p.allocations) != WHOLE then Err(PercentageTotal)
    else
      var _ :- CheckItems(p.allocations, p.confirmed, now, allowUnder);
      if Abs(p.totalAllocated - SumActual(p.allocations)) > TOLERANCE then Err(TotalAllocatedMismatch)
      else if Abs(p.confirmed - p.totalAllocated - p.totalRemainder) > TOLERANCE then Err(TotalRemainderMismatch)
      else if !Curated(p.allocations, catalogue) then Err(NotCurated)
      else if !MetadataMatches(p.allocations, catalogue) then Err(MetadataMismatch)
      else Ok(p)
  }

  lemma {:induction false} CheckItemsAll(items: seq<Allocation>, confirmed: int, now: int, allowUnder: bool)
    ensures CheckItems(items, confirmed, now, allowUnder).Ok?
       <==> forall i :: 0 <= i < |items| ==> CheckItem(items[i], confirmed, now, allowUnder).Ok?
  {
    if items != [] {
      CheckItemsAll(items[1..], confirmed, now, allowUnder);
      assert forall i :: 0 < i < |items| ==> items[i] == items[1..][i - 1];
    }
  }

  // ---------- What acceptance promises ----------

  // One accepted item: its target is within 2 cents of its exact share plus the half cent of
  // rounding, and its remainder within 2 cents of what target and allocated amount leave.
  lemma ItemWithinTolerance(a: Allocation, confirmed: int, now: int, allowUnder: bool)
    requires CheckItem(a, confirmed, now, allowUnder).Ok?
    ensures -25000 <= WHOLE * a.target - confirmed * a.percentage <= 25000
    ensures -2 <= a.remainder - (a.target - a.actual) <= 2
  {
    HalfEvenNearest(confirmed * a.percentage, WHOLE);
  }

  lemma {:induction false} ItemsWithinTolerance(items: seq<Allocation>, confirmed: int, now: int, allowUnder: bool)
    requires CheckItems(items, confirmed, now, allowUnder).Ok?
    ensures Abs(WHOLE * SumTargets(items) - confirmed * SumPercentages(items)) <= 25000 * |items|
    ensures Abs(SumRemainders(items) - (SumTargets(items) - SumActual(items))) <= 2 * |items|
  {
    if items != [] {
      ItemWithinTolerance(items[0], confirmed, now, allowUnder);
      ItemsWithinTolerance(items[1..], confirmed, now, allowUnder);
      Distribute(confirmed, items[0].percentage, SumPercentages(items[1..]));
    }
  }

  // The 2-cent tolerances compose over the whole plan, whichever way the payload was made.
  lemma TolerancesCompose(p: Plan, catalogue: Catalogue, now: int, allowUnder: bool)
    requires Validate(p, catalogue, now, allowUnder).Ok?
    ensures Abs(SumTargets(p.allocations) - p.confirmed) <= 7
    ensures Abs(SumRemainders(p.allocations) - p.totalRemainder) <= 17
  {
    ItemsWithinTolerance(p.allocations, p.confirmed, now, allowUnder);
  }

  // Both bounds are met: two half-cent roundings up, and every tolerance used in full.
  lemma TolerancesAreSharp(gold: Listing, catalogue: Catalogue, now: int)
    requires gold.increment == 100_000_000
    requires 0 in catalogue && 1 in catalogue && 2 in catalogue
    requires catalogue[0] == catalogue[1] == catalogue[2] == gold
    ensures exists p :: Validate(p, catalogue, now, false).Ok?
                     && SumTargets(p.allocations) - p.confirmed == 7
                     && SumRemainders(p.allocations) - p.totalRemainder == 17
  {
    var item := Allocation(0, "", gold, 150, 4, 100_000_000, 0, 0, 6, now, "", Live, None, []);
    var last := item.(instrument := 2, percentage := 9700, target := 99, remainder := 101);
    var items := [item, item.(instrument := 1), last];
    var p := Plan(100, "EGP", items, 2, 96, "", true);
    SumsOfThree(items[0], items[1], items[2]);
    assert SumTargets(items) == 107 && SumPercentages(items) == WHOLE;
    assert SumActual(items) == 0 && SumRemainders(items) == 113;
    assert ExpectedTarget(100, 150) == 2 && ExpectedTarget(100, 9700) == 97;
    CheckItemsAll(items, 100, now, false);
  }

  lemma SumsOfThree(a: Allocation, b: Allocation, c: Allocation)
    ensures SumTargets([a, b, c]) == a.target + b.target + c.target
    ensures SumPercentages([a, b, c]) == a.percentage + b.percentage + c.percentage
    ensures SumActual([a, b, c]) == a.actual + b.actual + c.actual
    ensures SumRemainders([a, b, c]) == a.remainder + b.remainder + c.remainder
  {
    SumsOfCons(c, []);
    SumsOfCons(b, [c]);
    SumsOfCons(a, [b, c]);
    assert [a] + ([b] + ([c] + [])) == [a, b, c];
  }

  lemma SumsOfCons(a: Allocation, rest: seq<Allocation>)
    ensures SumTargets([a] + rest) == a.target + SumTargets(rest)
    ensures SumPercentages([a] + rest) == a.percentage + SumPercentages(rest)
    ensures SumActual([a] + rest) == a.actual + SumActual(rest)
    ensures SumRemainders([a] + rest) == a.remainder + SumRemainders(rest)
  {
    assert ([a] + rest)[1..] == rest;
  }
}

/** Algebraic laws of the plan edits, and what they leave of an item over whole runs. */
module PlanLaws {
  import opened Wrappers
  import opened Rounding
  import opened PlanModel
  import opened PlanRecalculation
  import opened PlanAcceptance

  // What recalculation looks at in an item: all but the three amounts it rewrites.
  function Basis(a: Allocation): Allocation {
    a.(percentage := 0, actual := 0, remainder := 0)
  }

  predicate SameBasis(xs: seq<Allocation>, ys: seq<Allocation>) {
    |xs| == |ys| && forall i :: 0 <= i < |xs| ==> Basis(xs[i]) == Basis(ys[i])
  }

  // The derived amounts are the exact ones of quantity, price and target.
  predicate Settled(a: Allocation) {
    a.actual == Cost(a.quantity, a.unitPrice) && a.remainder == a.target - a.actual
  }

  predicate Canonical(p: Plan) {
    forall i :: 0 <= i < |p.allocations| ==> Settled(p.allocations[i])
  }

  lemma {:induction false} SameBasisSameSums(xs: seq<Allocation>, ys: seq<Allocation>)
    requires SameBasis(xs, ys)
    ensures SumTargets(xs) == SumTargets(ys)
  {
    if xs != [] {
      assert Basis(xs[0]) == Basis(ys[0]);
      SameBasisSameSums(xs[1..], ys[1..]);
    }
  }

  lemma {:induction false} SettleByBasis(xs: seq<Allocation>, ys: seq<Allocation>, confirmed: nat, used: int)
    requires SameBasis(xs, ys)
    ensures SettleItems(xs, confirmed, used) == SettleItems(ys, confirmed, used)
  {
    if xs != [] {
      assert Basis(xs[0]) == Basis(ys[0]);
      assert xs[0].target == ys[0].target && xs[0].quantity == ys[0].quantity;
      assert xs[0].unitPrice == ys[0].unitPrice && xs[0].listing == ys[0].listing;
      if PercentageOf(xs, confirmed, used).Ok? {
        var percentage := PercentageOf(xs, confirmed, used).value;
        assert Settle(xs[0], percentage) == Settle(Basis(xs[0]), percentage) == Settle(ys[0], percentage);
        SettleByBasis(xs[1..], ys[1..], confirmed, used + percentage);
      }
    }
  }

  // Recalculation reads nothing of a plan but its items' bases, its currency and its disclaimer.
  lemma RecalculationByBasis(p: Plan, q: Plan, catalogue: Catalogue, now: int)
    requires SameBasis(p.allocations, q.allocations)
    requires p.currency == q.currency && p.disclaimer == q.disclaimer
    ensures Recalculation(p, catalogue, now) == Recalculation(q, catalogue, now)
  {
    SameBasisSameSums(p.allocations, q.allocations);
    SettleByBasis(p.allocations, q.allocations, SumTargets(p.allocations), 0);
  }

  lemma {:induction false} SettlingKeepsBasis(items: seq<Allocation>, confirmed: nat, used: int)
    requires SettleItems(items, confirmed, used).Ok?
    ensures SameBasis(SettleItems(items, confirmed, used).value, items)
    ensures forall i :: 0 <= i < |items| ==> Settled(SettleItems(items, confirmed, used).value[i])
  {
    if items != [] {
      var percentage := PercentageOf(items, confirmed, used).value;
      SettlingKeepsBasis(items[1..], confirmed, used + percentage);
      var rest := SettleItems(items[1..], confirmed, used + percentage).value;
      assert SettleItems(items, confirmed, used).value == [Settle(items[0], percentage)] + rest;
      assert forall i :: 0 < i < |items| ==> items[i] == items[1..][i - 1];
    }
  }

  // An accepted recalculation changes nothing of an item but the three derived amounts.
  lemma RecalculationKeepsBasis(p: Plan, catalogue: Catalogue, now: int)
    requires Recalculation(p, catalogue, now).Ok?
    ensures var q := Recalculation(p, catalogue, now).value;
            && SameBasis(q.allocations, p.allocations) && Canonical(q)
            && q.currency == p.currency && q.disclaimer == p.disclaimer
  {
    SettlingKeepsBasis(p.allocations, SumTargets(p.allocations), 0);
  }

  // What is accepted now is accepted, and comes out the same, at any later time.
  lemma RecalculationLater(p: Plan, catalogue: Catalogue, now: int, later: int)
    requires now <= later && Recalculation(p, catalogue, now).Ok?
    ensures Recalculation(p, catalogue, later) == Recalculation(p, catalogue, now)
  {
    AcceptedExactly(p, catalogue, now);
    AcceptedExactly(p, catalogue, later);
  }

  // Recalculating an accepted recalculation is recalculating the plan it came from, and from then
  // on gives the same plan back.
  lemma RecalculationIdempotent(p: Plan, catalogue: Catalogue, now: int, later: int)
    requires Recalculation(p, catalogue, now).Ok?
    ensures var q := Recalculation(p, catalogue, now).value;
            && Recalculation(q, catalogue, later) == Recalculation(p, catalogue, later)
            && (now <= later ==> Recalculation(q, catalogue, later) == Ok(q))
  {
    RecalculationKeepsBasis(p, catalogue, now);
    RecalculationByBasis(Recalculation(p, catalogue, now).value, p, catalogue, later);
    if now <= later {
      RecalculationLater(p, catalogue, now, later);
    }
  }

  // ---------- Edits ----------

  lemma {:induction false} IndexByBasis(xs: seq<Allocation>, ys: seq<Allocation>, id: InstrumentId)
    requires SameBasis(xs, ys)
    ensures IndexOf(xs, id) == IndexOf(ys, id)
  {
    if xs != [] {
      assert Basis(xs[0]) == Basis(ys[0]);
      assert xs[0].instrument == ys[0].instrument;
      IndexByBasis(xs[1..], ys[1..], id);
    }
  }

  lemma ChangesByBasis(a: Allocation, b: Allocation, changes: Changes, now: int)
    requires Basis(a) == Basis(b)
    ensures Basis(ApplyChanges(a, changes, now)) == Basis(ApplyChanges(b, changes, now))
  {
    assert a == b.(percentage := a.percentage, actual := a.actual, remainder := a.remainder);
  }

  lemma EditedByBasis(xs: seq<Allocation>, ys: seq<Allocation>, id: InstrumentId, changes: Changes, now: int)
    requires SameBasis(xs, ys)
    ensures SameBasis(EditedItems(xs, id, changes, now), EditedItems(ys, id, changes, now))
  {
    IndexByBasis(xs, ys, id);
    var k := IndexOf(xs, id);
    if k < |xs| {
      ChangesByBasis(xs[k], ys[k], changes, now);
    }
  }

  lemma {:induction false} EditKeepsIndices(items: seq<Allocation>, id: InstrumentId, changes: Changes, now: int,
                                            other: InstrumentId)
    ensures IndexOf(EditedItems(items, id, changes, now), other) == IndexOf(items, other)
  {
    if items != [] && items[0].instrument != id {
      EditKeepsIndices(items[1..], id, changes, now, other);
      var edited := EditedItems(items, id, changes, now);
      assert edited[1..] == EditedItems(items[1..], id, changes, now);
    } else if items != [] {
      assert EditedItems(items, id, changes, now)[1..] == items[1..];
    }
  }

  // The edited item of an accepted edit is the changed one, settled; an edited price is
  // labelled as the user's own and dated, any other edit leaves the quote's label alone.
  lemma EditedItemIs(p: Plan, id: InstrumentId, changes: Changes, catalogue: Catalogue, now: int)
    requires EditPlan(p, id, changes, catalogue, now).Ok?
    ensures var q, k := EditPlan(p, id, changes, catalogue, now).value, IndexOf(p.allocations, id);
            && k < |p.allocations| == |q.allocations|
            && var before, after := p.allocations[k], q.allocations[k];
               && Settled(after) && after.actual <= after.target
               && after.instrument == id && after.listing == before.listing
               && after.target == (if changes.target.Some? then changes.target.value else before.target)
               && after.unitPrice == (if changes.unitPrice.Some? then changes.unitPrice.value else before.unitPrice)
               && (changes.quantity.Some? ==> after.quantity == changes.quantity.value)
               && (changes == Changes(None, None, None) ==> after.quantity == before.quantity)
               && (changes.unitPrice.Some? ==>
                     after.mode == UserSupplied && after.source == EDITED_SOURCE && after.observedAt == now)
               && (changes.unitPrice.None? ==>
                     after.mode == before.mode && after.source == before.source
                     && after.observedAt == before.observedAt)
               && (changes.quantity.None? && (changes.target.Some? || changes.unitPrice.Some?) ==>
                     after.quantity == AffordableQuantity(after.target, after.unitPrice, after.listing.increment))
  {
    var edited := p.(allocations := EditedItems(p.allocations, id, changes, now));
    var k := IndexOf(p.allocations, id);
    RecalculationKeepsBasis(edited, catalogue, now);
    RecalculationConserves(edited, catalogue, now);
    var after := EditPlan(p, id, changes, catalogue, now).value.allocations[k];
    var changed := edited.allocations[k];
    assert Basis(after) == Basis(changed);
    assert after == changed.(percentage := after.percentage, actual := after.actual, remainder := after.remainder);
  }

  // What an accepted edit leaves of the other items: everything but the percentage and, when
  // the stored amount was not the exact one, the allocated amount and remainder.
  lemma EditKeepsOthers(p: Plan, id: InstrumentId, changes: Changes, catalogue: Catalogue, now: int, i: nat)
    requires EditPlan(p, id, changes, catalogue, now).Ok?
    requires i < |p.allocations| && p.allocations[i].instrument != id
    ensures var q := EditPlan(p, id, changes, catalogue, now).value;
            && |q.allocations| == |p.allocations|
            && Basis(q.allocations[i]) == Basis(p.allocations[i])
            && Settled(q.allocations[i])
            && (q.allocations[i].actual == p.allocations[i].actual
                <==> p.allocations[i].actual == Cost(p.allocations[i].quantity, p.allocations[i].unitPrice))
  {
    var edited := p.(allocations := EditedItems(p.allocations, id, changes, now));
    RecalculationKeepsBasis(edited, catalogue, now);
    var q := EditPlan(p, id, changes, catalogue, now).value;
    assert Basis(q.allocations[i]) == Basis(p.allocations[i]);
    assert q.allocations[i].quantity == Basis(q.allocations[i]).quantity;
    assert q.allocations[i].unitPrice == Basis(q.allocations[i]).unitPrice;
  }

  // A plan the validator accepted stores allocated amounts within two cents of the exact ones,
  // so the first edit moves another item's amount by no more.
  lemma EditMovesOthersLittle(p: Plan, allowUnder: bool, before: int, id: InstrumentId, changes: Changes,
                              catalogue: Catalogue, now: int, i: nat)
    requires Validate(p, catalogue, before, allowUnder).Ok?
    requires EditPlan(p, id, changes, catalogue, now).Ok?
    requires i < |p.allocations| && p.allocations[i].instrument != id
    ensures var q := EditPlan(p, id, changes, catalogue, now).value;
            |q.allocations| == |p.allocations|
            && Abs(q.allocations[i].actual - p.allocations[i].actual) <= TOLERANCE
  {
    EditKeepsOthers(p, id, changes, catalogue, now, i);
    CheckItemsAll(p.allocations, p.confirmed, before, allowUnder);
    var q := EditPlan(p, id, changes, catalogue, now).value;
    assert CheckItem(p.allocations[i], p.confirmed, before, allowUnder).Ok?;
    assert q.allocations[i].quantity == Basis(q.allocations[i]).quantity == p.allocations[i].quantity;
    assert q.allocations[i].unitPrice == Basis(q.allocations[i]).unitPrice == p.allocations[i].unitPrice;
  }

  // Two edits in a row, each at its own time, are both edits of the original items, recalculated
  // once at the second time.
  lemma EditTwice(p: Plan, id1: InstrumentId, c1: Changes, id2: InstrumentId, c2: Changes,
                  catalogue: Catalogue, t1: int, t2: int)
    requires EditPlan(p, id1, c1, catalogue, t1).Ok?
    ensures EditPlan(EditPlan(p, id1, c1, catalogue, t1).value, id2, c2, catalogue, t2)
         == if IndexOf(p.allocations, id2) == |p.allocations| then Err(UnknownInstrument)
            else Recalculation(p.(allocations := EditedTwice(p.allocations, id1, c1, t1, id2, c2, t2)), catalogue, t2)
  {
    var e1 := EditedItems(p.allocations, id1, c1, t1);
    var q1 := EditPlan(p, id1, c1, catalogue, t1).value;
    RecalculationKeepsBasis(p.(allocations := e1), catalogue, t1);
    EditedByBasis(q1.allocations, e1, id2, c2, t2);
    IndexByBasis(q1.allocations, e1, id2);
    EditKeepsIndices(p.allocations, id1, c1, t1, id2);
    RecalculationByBasis(q1.(allocations := EditedItems(q1.allocations, id2, c2, t2)),
                         p.(allocations := EditedItems(e1, id2, c2, t2)), catalogue, t2);
  }

  function EditedTwice(items: seq<Allocation>, id1: InstrumentId, c1: Changes, t1: int,
                       id2: InstrumentId, c2: Changes, t2: int): seq<Allocation> {
    EditedItems(EditedItems(items, id1, c1, t1), id2, c2, t2)
  }

  // Two items of 50.00, the second with 49.98 recorded for what costs 50.00.
  function InexactPlan(gold: Listing, now: int): Plan
    requires gold.increment == 100_000_000
  {
    var item := Allocation(0, "", gold, 5000, 5000, 100_000_000, 5_000_000_000, 5000, 0, now, "", Live, None, []);
    Plan(10000, "EGP", [item, item.(instrument := 1, actual := 4998, remainder := 2)], 9998, 2, "", true)
  }

  lemma InexactPlanIsValid(gold: Listing, catalogue: Catalogue, now: int)
    requires gold.increment == 100_000_000
    requires 0 in catalogue && 1 in catalogue && catalogue[0] == catalogue[1] == gold
    ensures Validate(InexactPlan(gold, now), catalogue, now, false).Ok?
    ensures AffordableQuantity(5000, 100_000_000, 100_000_000) == 5_000_000_000
    ensures SumTargets(InexactPlan(gold, now).allocations) == 10000
    ensures Cost(5_000_000_000, 100_000_000) == 5000
  {
    var p := InexactPlan(gold, now);
    SumsOfTwo(p.allocations[0], p.allocations[1]);
    assert Cost(5_000_000_000, 100_000_000) == 5000 && ExpectedTarget(10000, 5000) == 5000;
    assert AffordableQuantity(5000, 100_000_000, 100_000_000) == 5_000_000_000;
    CheckItemsAll(p.allocations, 10000, now, false);
  }

  // A plan the validator accepts whose second item moves by two cents when the first is edited.
  lemma OtherAmountIsMoved(gold: Listing, catalogue: Catalogue, now: int) returns (p: Plan)
    requires gold.increment == 100_000_000
    requires 0 in catalogue && 1 in catalogue && catalogue[0] == catalogue[1] == gold
    ensures Validate(p, catalogue, now, false).Ok?
    ensures var r := EditPlan(p, 0, Changes(Some(5000), None, None), catalogue, now);
            && r.Ok? && |r.value.allocations| == |p.allocations| == 2
            && p.allocations[1].instrument == 1
            && r.value.allocations[1].actual == p.allocations[1].actual + 2
  {
    p := InexactPlan(gold, now);
    var changes := Changes(Some(5000), None, None);
    InexactPlanIsValid(gold, catalogue, now);
    assert EditedItems(p.allocations, 0, changes, now) == p.allocations;
    SmallPlansTolerable(p.allocations);
    AcceptedExactly(p, catalogue, now);
    RecalculationKeepsBasis(p, catalogue, now);
    var after := Recalculation(p, catalogue, now).value.allocations[1];
    assert after.quantity == Basis(after).quantity && after.unitPrice == Basis(after).unitPrice;
  }

  // ---------- Quote times ----------

  predicate SameButDate(a: Allocation, b: Allocation) {
    b == a.(observedAt := b.observedAt)
  }

  // The same items, but for the quote times of some of them.
  predicate SameButDates(xs: seq<Allocation>, ys: seq<Allocation>, dated: set<InstrumentId>) {
    && |xs| == |ys|
    && forall i :: 0 <= i < |xs| ==> SameButDate(xs[i], ys[i]) && (xs[i].instrument !in dated ==> xs[i] == ys[i])
  }

  // The same error, or plans that are the same but for those quote times.
  predicate AgreeButDates(r: Result<Plan, PlanError>, r': Result<Plan, PlanError>, dated: set<InstrumentId>) {
    match r
    case Err(e) => r' == Err(e)
    case Ok(p) =>
      && r'.Ok? && r'.value == p.(allocations := r'.value.allocations)
      && SameButDates(p.allocations, r'.value.allocations, dated)
  }

  predicate NotInFuture(items: seq<Allocation>, now: int) {
    forall i :: 0 <= i < |items| ==> items[i].observedAt <= now + CLOCK_SKEW
  }

  lemma {:induction false} SameSums(xs: seq<Allocation>, ys: seq<Allocation>, dated: set<InstrumentId>)
    requires SameButDates(xs, ys, dated)
    ensures SumTargets(xs) == SumTargets(ys)
    ensures SumPercentages(xs) == SumPercentages(ys)
    ensures SumActual(xs) == SumActual(ys)
  {
    if xs != [] {
      assert SameButDate(xs[0], ys[0]);
      SameSums(xs[1..], ys[1..], dated);
    }
  }

  lemma SettleSame(a: Allocation, b: Allocation, percentage: int)
    requires SameButDate(a, b)
    ensures a.target == b.target && CheckPurchase(a) == CheckPurchase(b)
    ensures SameButDate(Settle(a, percentage), Settle(b, percentage))
    ensures a == b ==> Settle(a, percentage) == Settle(b, percentage)
    ensures Settle(a, percentage).instrument == a.instrument
    ensures Settle(a, percentage).observedAt == a.observedAt && Settle(b, percentage).observedAt == b.observedAt
  {
  }

  predicate SettledAlike(r: Result<seq<Allocation>, PlanError>, r': Result<seq<Allocation>, PlanError>,
                         dated: set<InstrumentId>, now: int) {
    match r
    case Err(e) => r' == Err(e)
    case Ok(xs) => r'.Ok? && SameButDates(xs, r'.value, dated) && NotInFuture(xs, now) && NotInFuture(r'.value, now)
  }

  // Settling reads no quote time.
  lemma {:induction false} SettleItemsSame(xs: seq<Allocation>, ys: seq<Allocation>, dated: set<InstrumentId>,
                                           now: int, confirmed: nat, used: int)
    requires SameButDates(xs, ys, dated) && NotInFuture(xs, now) && NotInFuture(ys, now)
    ensures SettledAlike(SettleItems(xs, confirmed, used), SettleItems(ys, confirmed, used), dated, now)
  {
    if xs != [] {
      SettleSame(xs[0], ys[0], 0);
      assert PercentageOf(xs, confirmed, used) == PercentageOf(ys, confirmed, used);
      if PercentageOf(xs, confirmed, used).Ok? {
        var percentage := PercentageOf(xs, confirmed, used).value;
        SettleSame(xs[0], ys[0], percentage);
        SettleItemsSame(xs[1..], ys[1..], dated, now, confirmed, used + percentage);
      }
    }
  }

  lemma CheckItemSame(a: Allocation, b: Allocation, confirmed: int, now: int)
    requires SameButDate(a, b) && a.observedAt <= now + CLOCK_SKEW && b.observedAt <= now + CLOCK_SKEW
    ensures CheckItem(a, confirmed, now, true) == CheckItem(b, confirmed, now, true)
  {
  }

  lemma {:induction false} CheckItemsSame(xs: seq<Allocation>, ys: seq<Allocation>, dated: set<InstrumentId>,
                                          confirmed: int, now: int)
    requires SameButDates(xs, ys, dated) && NotInFuture(xs, now) && NotInFuture(ys, now)
    ensures CheckItems(xs, confirmed, now, true) == CheckItems(ys, confirmed, now, true)
  {
    if xs != [] {
      CheckItemSame(xs[0], ys[0], confirmed, now);
      CheckItemsSame(xs[1..], ys[1..], dated, confirmed, now);
    }
  }

  // The other checks look at none.
  lemma OtherChecksSame(xs: seq<Allocation>, ys: seq<Allocation>, dated: set<InstrumentId>, catalogue: Catalogue)
    requires SameButDates(xs, ys, dated)
    ensures (forall i :: 0 <= i < |xs| ==> ItemFieldsInRange(xs[i]))
         <==> (forall i :: 0 <= i < |ys| ==> ItemFieldsInRange(ys[i]))
    ensures DistinctInstruments(xs) <==> DistinctInstruments(ys)
    ensures PrioritiesOk(xs) <==> PrioritiesOk(ys)
    ensures Curated(xs, catalogue) <==> Curated(ys, catalogue)
    ensures Curated(xs, catalogue) ==> (MetadataMatches(xs, catalogue) <==> MetadataMatches(ys, catalogue))
  {
    forall i | 0 <= i < |xs|
      ensures xs[i].instrument == ys[i].instrument && xs[i].priority == ys[i].priority && xs[i].listing == ys[i].listing
      ensures ItemFieldsInRange(xs[i]) == ItemFieldsInRange(ys[i])
    {
      assert SameButDate(xs[i], ys[i]);
    }
  }

  lemma ValidateSame(p: Plan, q: Plan, dated: set<InstrumentId>, catalogue: Catalogue, now: int)
    requires q == p.(allocations := q.allocations) && SameButDates(p.allocations, q.allocations, dated)
    requires NotInFuture(p.allocations, now) && NotInFuture(q.allocations, now)
    ensures AgreeButDates(Validate(p, catalogue, now, true), Validate(q, catalogue, now, true), dated)
  {
    SameSums(p.allocations, q.allocations, dated);
    CheckItemsSame(p.allocations, q.allocations, dated, p.confirmed, now);
    OtherChecksSame(p.allocations, q.allocations, dated, catalogue);
    assert FieldsInRange(p) <==> FieldsInRange(q);
  }

  // Quote times that are not in the future make no difference but to themselves.
  lemma RecalculationSame(p: Plan, q: Plan, dated: set<InstrumentId>, catalogue: Catalogue, now: int)
    requires q == p.(allocations := q.allocations) && SameButDates(p.allocations, q.allocations, dated)
    requires NotInFuture(p.allocations, now) && NotInFuture(q.allocations, now)
    ensures AgreeButDates(Recalculation(p, catalogue, now), Recalculation(q, catalogue, now), dated)
  {
    SameSums(p.allocations, q.allocations, dated);
    var confirmed := SumTargets(p.allocations);
    SettleItemsSame(p.allocations, q.allocations, dated, now, confirmed, 0);
    var xs, ys := SettleItems(p.allocations, confirmed, 0), SettleItems(q.allocations, confirmed, 0);
    if p.allocations != [] && xs.Ok? {
      SameSums(xs.value, ys.value, dated);
      ValidateSame(WithItems(p, xs.value), WithItems(q, ys.value), dated, catalogue, now);
    }
  }

  // ---------- Edits commute ----------

  // The items whose price an edit sets, which dates their quote.
  function Priced(id: InstrumentId, changes: Changes): set<InstrumentId> {
    if changes.unitPrice.Some? then {id} else {}
  }

  lemma ChangesSame(a: Allocation, changes: Changes, t1: int, t2: int)
    ensures SameButDate(ApplyChanges(a, changes, t1), ApplyChanges(a, changes, t2))
    ensures changes.unitPrice.None? ==> ApplyChanges(a, changes, t1) == ApplyChanges(a, changes, t2)
    ensures ApplyChanges(a, changes, t1).instrument == a.instrument
  {
  }

  // Where two edits of different items leave each item.
  lemma EditedTwiceAt(items: seq<Allocation>, id1: InstrumentId, c1: Changes, t1: int, id2: InstrumentId, c2: Changes,
                      t2: int)
    requires id1 != id2
    ensures var e, k1, k2 := EditedTwice(items, id1, c1, t1, id2, c2, t2), IndexOf(items, id1), IndexOf(items, id2);
            && |e| == |items|
            && forall i :: 0 <= i < |items| ==>
                 e[i] == if i == k1 then ApplyChanges(items[i], c1, t1)
                         else if i == k2 then ApplyChanges(items[i], c2, t2)
                         else items[i]
  {
    EditKeepsIndices(items, id1, c1, t1, id2);
  }

  lemma EditedItemsCommute(items: seq<Allocation>, id1: InstrumentId, c1: Changes, id2: InstrumentId, c2: Changes,
                           t1: int, t2: int)
    requires id1 != id2
    ensures SameButDates(EditedTwice(items, id1, c1, t1, id2, c2, t2), EditedTwice(items, id2, c2, t1, id1, c1, t2),
                         Priced(id1, c1) + Priced(id2, c2))
  {
    EditedTwiceAt(items, id1, c1, t1, id2, c2, t2);
    EditedTwiceAt(items, id2, c2, t1, id1, c1, t2);
    var e, e' := EditedTwice(items, id1, c1, t1, id2, c2, t2), EditedTwice(items, id2, c2, t1, id1, c1, t2);
    forall i | 0 <= i < |items|
      ensures SameButDate(e[i], e'[i]) && (e[i].instrument !in Priced(id1, c1) + Priced(id2, c2) ==> e[i] == e'[i])
    {
      ChangesSame(items[i], c1, t1, t2);
      ChangesSame(items[i], c2, t2, t1);
    }
  }

  // An edit accepted at t1 and one made at t2 leave no quote in the future.
  lemma TwiceNotInFuture(p: Plan, id1: InstrumentId, c1: Changes, id2: InstrumentId, c2: Changes,
                         catalogue: Catalogue, t1: int, t2: int)
    requires t1 <= t2 && EditPlan(p, id1, c1, catalogue, t1).Ok?
    ensures NotInFuture(EditedTwice(p.allocations, id1, c1, t1, id2, c2, t2), t2)
  {
    var e1 := EditedItems(p.allocations, id1, c1, t1);
    AcceptedExactly(p.(allocations := e1), catalogue, t1);
    assert forall i :: 0 <= i < |e1| ==> ItemAcceptable(e1[i], t1);
  }

  // Edits to two different items commute: once each is accepted on its own, making the other one
  // later has the same outcome in both orders, error included, but for the quote times of the
  // items whose price was edited; with no price edited, the same outcome outright.
  lemma EditsCommute(p: Plan, id1: InstrumentId, c1: Changes, id2: InstrumentId, c2: Changes,
                     catalogue: Catalogue, t1: int, t2: int)
    requires id1 != id2 && t1 <= t2
    requires EditPlan(p, id1, c1, catalogue, t1).Ok? && EditPlan(p, id2, c2, catalogue, t1).Ok?
    ensures var r := EditPlan(EditPlan(p, id1, c1, catalogue, t1).value, id2, c2, catalogue, t2);
            var r' := EditPlan(EditPlan(p, id2, c2, catalogue, t1).value, id1, c1, catalogue, t2);
            && AgreeButDates(r, r', Priced(id1, c1) + Priced(id2, c2))
            && (c1.unitPrice.None? && c2.unitPrice.None? ==> r == r')
  {
    var dated := Priced(id1, c1) + Priced(id2, c2);
    var e := EditedTwice(p.allocations, id1, c1, t1, id2, c2, t2);
    var e' := EditedTwice(p.allocations, id2, c2, t1, id1, c1, t2);
    EditTwice(p, id1, c1, id2, c2, catalogue, t1, t2);
    EditTwice(p, id2, c2, id1, c1, catalogue, t1, t2);
    EditedItemsCommute(p.allocations, id1, c1, id2, c2, t1, t2);
    TwiceNotInFuture(p, id1, c1, id2, c2, catalogue, t1, t2);
    TwiceNotInFuture(p, id2, c2, id1, c1, catalogue, t1, t2);
    RecalculationSame(p.(allocations := e), p.(allocations := e'), dated, catalogue, t2);
    if c1.unitPrice.None? && c2.unitPrice.None? {
      assert e == e';
    }
  }

  // ---------- Removals ----------

  lemma {:induction false} WithoutByBasis(xs: seq<Allocation>, ys: seq<Allocation>, id: InstrumentId)
    requires SameBasis(xs, ys)
    ensures SameBasis(Without(xs, id), Without(ys, id))
  {
    if xs != [] {
      assert Basis(xs[0]) == Basis(ys[0]);
      assert xs[0].instrument == Basis(xs[0]).instrument == ys[0].instrument;
      WithoutByBasis(xs[1..], ys[1..], id);
    }
  }

  lemma {:induction false} EditThenWithout(items: seq<Allocation>, id: InstrumentId, changes: Changes, now: int)
    ensures Without(EditedItems(items, id, changes, now), id) == Without(items, id)
  {
    if items != [] && items[0].instrument != id {
      EditThenWithout(items[1..], id, changes, now);
      assert EditedItems(items, id, changes, now)[1..] == EditedItems(items[1..], id, changes, now);
    } else if items != [] {
      assert EditedItems(items, id, changes, now)[1..] == items[1..];
    }
  }

  lemma {:induction false} WithoutExactly(items: seq<Allocation>, id: InstrumentId)
    ensures forall a :: a in Without(items, id) <==> a in items && a.instrument != id
    ensures |Without(items, id)| == |items| <==> IndexOf(items, id) == |items|
    ensures |Without(items, id)| <= |items|
  {
    if items != [] {
      WithoutExactly(items[1..], id);
      assert items == [items[0]] + items[1..];
    }
  }

  // An accepted removal takes out the item, which was there, and leaves the other items in their
  // order with everything but their percentage and, at most, their amounts; nothing is left
  // exactly when the plan held no other item.
  lemma RemovalLeavesOthers(p: Plan, id: InstrumentId, catalogue: Catalogue, now: int)
    requires RemoveFromPlan(p, id, catalogue, now).Ok?
    ensures IndexOf(p.allocations, id) < |p.allocations|
    ensures var left := RemoveFromPlan(p, id, catalogue, now).value;
            && (left.None? <==> forall a :: a in p.allocations ==> a.instrument == id)
            && (left.Some? ==>
                  && SameBasis(left.value.allocations, Without(p.allocations, id)) && Canonical(left.value)
                  && IndexOf(left.value.allocations, id) == |left.value.allocations|)
  {
    var remaining := Without(p.allocations, id);
    WithoutExactly(p.allocations, id);
    if remaining == [] {
      assert forall a :: a in p.allocations ==> a.instrument != id ==> a in remaining;
    } else {
      assert remaining[0] in remaining;
      RecalculationKeepsBasis(p.(allocations := remaining), catalogue, now);
      var left := RemoveFromPlan(p, id, catalogue, now).value.value.allocations;
      forall k | 0 <= k < |left|
        ensures left[k].instrument != id
      {
        assert Basis(left[k]).instrument == Basis(remaining[k]).instrument;
        assert remaining[k] in remaining;
      }
    }
  }

  // ---------- When edits and removals are accepted ----------

  predicate HasItem(items: seq<Allocation>, id: InstrumentId) {
    exists i :: 0 <= i < |items| && items[i].instrument == id
  }

  lemma {:induction false} IndexExactly(items: seq<Allocation>, id: InstrumentId)
    ensures IndexOf(items, id) < |items| <==> HasItem(items, id)
  {
    if HasItem(items, id) {
      var i :| 0 <= i < |items| && items[i].instrument == id;
      assert IndexOf(items, id) <= i;
    }
  }

  // An edit is accepted exactly when the plan has the item and the edited items are acceptable.
  lemma EditExactly(p: Plan, id: InstrumentId, changes: Changes, catalogue: Catalogue, now: int)
    ensures var r := EditPlan(p, id, changes, catalogue, now);
            && (r == Err(UnknownInstrument) <==> !HasItem(p.allocations, id))
            && (r.Ok? <==>
                  var edited := p.(allocations := EditedItems(p.allocations, id, changes, now));
                  HasItem(p.allocations, id) && Acceptable(edited, catalogue, now))
  {
    var edited := p.(allocations := EditedItems(p.allocations, id, changes, now));
    IndexExactly(p.allocations, id);
    AcceptedExactly(edited, catalogue, now);
    KnownItems(edited, catalogue, now);
  }

  // A removal is accepted exactly when the plan has the item and either no other or acceptable ones.
  lemma RemovalExactly(p: Plan, id: InstrumentId, catalogue: Catalogue, now: int)
    ensures var r, others := RemoveFromPlan(p, id, catalogue, now), Without(p.allocations, id);
            && (r == Err(UnknownInstrument) <==> !HasItem(p.allocations, id))
            && (r == Ok(None) <==> HasItem(p.allocations, id) && others == [])
            && (r.Ok? <==> HasItem(p.allocations, id)
                           && (others == [] || Acceptable(p.(allocations := others), catalogue, now)))
  {
    var rest := p.(allocations := Without(p.allocations, id));
    WithoutExactly(p.allocations, id);
    IndexExactly(p.allocations, id);
    AcceptedExactly(rest, catalogue, now);
    KnownItems(rest, catalogue, now);
  }

  // Recalculation itself never complains of an unknown instrument, and of an empty plan exactly when
  // it is given one.
  lemma KnownItems(p: Plan, catalogue: Catalogue, now: int)
    ensures Recalculation(p, catalogue, now) != Err(UnknownInstrument)
    ensures Recalculation(p, catalogue, now) == Err(EmptyPlan) <==> p.allocations == []
  {
    SettlingErrors(p.allocations, SumTargets(p.allocations), 0);
    var settled := SettleItems(p.allocations, SumTargets(p.allocations), 0);
    if p.allocations != [] && settled.Ok? {
      var q := WithItems(p, settled.value);
      CheckingErrors(q.allocations, q.confirmed, now);
    }
  }

  lemma {:induction false} SettlingErrors(items: seq<Allocation>, confirmed: nat, used: int)
    ensures var r := SettleItems(items, confirmed, used);
            r.Err? ==> r.error == OffIncrement || r.error == ExceedsTarget || r.error == DivisionUndefined
  {
    if items != [] && PercentageOf(items, confirmed, used).Ok? {
      SettlingErrors(items[1..], confirmed, used + PercentageOf(items, confirmed, used).value);
    }
  }

  // Settling stops at the first item that is off its increment or costs more than its target, with
  // that item's error.
  lemma {:induction false} SettlingRefuses(items: seq<Allocation>, confirmed: Pos, used: int)
    ensures var r := SettleItems(items, confirmed, used); r.Err? ==> SomeIsRefused(items, r.error)
    decreases |items|, 1
  {
    if items != [] {
      var first := CheckPurchase(items[0]);
      if first.Ok? {
        SettlingTail(items, confirmed, used);
      } else {
        assert IsFirstRefused(items, 0, first.error);
      }
    }
  }

  lemma SettlingTail(items: seq<Allocation>, confirmed: Pos, used: int)
    requires items != [] && CheckPurchase(items[0]).Ok?
    ensures var r := SettleItems(items, confirmed, used); r.Err? ==> SomeIsRefused(items, r.error)
    decreases |items|, 0
  {
    var percentage := PercentageOf(items, confirmed, used).value;
    var rest := SettleItems(items[1..], confirmed, used + percentage);
    SettlingRefuses(items[1..], confirmed, used + percentage);
    if rest.Err? {
      RefusedInTail(items, rest.error);
    }
  }

  predicate SomeIsRefused(items: seq<Allocation>, e: PlanError) {
    exists i :: 0 <= i < |items| && IsFirstRefused(items, i, e)
  }

  lemma RefusedInTail(items: seq<Allocation>, e: PlanError)
    requires items != [] && CheckPurchase(items[0]).Ok? && SomeIsRefused(items[1..], e)
    ensures SomeIsRefused(items, e)
  {
    var i :| 0 <= i < |items[1..]| && IsFirstRefused(items[1..], i, e);
    assert forall j :: 0 < j < |items| ==> items[j] == items[1..][j - 1];
    assert IsFirstRefused(items, i + 1, e);
  }

  // Item i is refused with this error: off its increment, or else its rounded cost above its target;
  // no earlier item is refused.
  predicate IsFirstRefused(items: seq<Allocation>, i: nat, e: PlanError)
    requires i < |items|
  {
    && (forall j :: 0 <= j < i ==> !OffSteps(items[j]) && !TooDear(items[j]))
    && (if OffSteps(items[i]) then e == OffIncrement else TooDear(items[i]) && e == ExceedsTarget)
  }

  predicate OffSteps(a: Allocation) {
    a.quantity % a.listing.increment != 0
  }

  predicate TooDear(a: Allocation) {
    Cost(a.quantity, a.unitPrice) > a.target
  }

  lemma {:induction false} CheckingErrors(items: seq<Allocation>, confirmed: int, now: int)
    ensures var r := CheckItems(items, confirmed, now, true);
            r.Err? ==> r.error != UnknownInstrument && r.error != EmptyPlan
  {
    if items != [] {
      CheckingErrors(items[1..], confirmed, now);
    }
  }

  // Editing an item and later removing it is removing it.
  lemma EditThenRemove(p: Plan, id: InstrumentId, changes: Changes, catalogue: Catalogue, t1: int, t2: int)
    requires EditPlan(p, id, changes, catalogue, t1).Ok?
    ensures RemoveFromPlan(EditPlan(p, id, changes, catalogue, t1).value, id, catalogue, t2)
         == RemoveFromPlan(p, id, catalogue, t2)
  {
    var edited := EditedItems(p.allocations, id, changes, t1);
    var q := EditPlan(p, id, changes, catalogue, t1).value;
    RecalculationKeepsBasis(p.(allocations := edited), catalogue, t1);
    WithoutByBasis(q.allocations, edited, id);
    EditThenWithout(p.allocations, id, changes, t1);
    RecalculationByBasis(q.(allocations := Without(q.allocations, id)),
                         p.(allocations := Without(p.allocations, id)), catalogue, t2);
  }
}

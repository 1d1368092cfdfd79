/**
 Recalculation of a saved plan after an edit: the specification functions, and the working
 copy (the deep-copied payload) on which the code carries it out in place.
 */
module PlanRecalculation {
  import opened Wrappers
  import opened Rounding
  import opened PlanModel

  // ---------- Specification ----------

  // A non-last item's percentage: its share of the confirmed amount, half-up.
  function Share(target: nat, confirmed: Pos): int {
    HalfUp(target * WHOLE, confirmed)
  }

  function PercentageOf(items: seq<Allocation>, confirmed: nat, used: int): Result<int, PlanError>
    requires items != []
  {
    if |items| == 1 then Ok(WHOLE - used)
    else if confirmed == 0 then Err(DivisionUndefined)
    else Ok(Share(items[0].target, confirmed))
  }

  function CheckPurchase(a: Allocation): Result<(), PlanError> {
    if a.quantity % a.listing.increment != 0 then Err(OffIncrement)
    else if Cost(a.quantity, a.unitPrice) > a.target then Err(ExceedsTarget)
    else Ok(())
  }

  function Settle(a: Allocation, percentage: int): Allocation {
    var spent := Cost(a.quantity, a.unitPrice);
    a.(percentage := percentage, actual := spent, remainder := a.target - spent)
  }

  // The items from some position on, when the earlier ones have used up part of the 100 %.
  function SettleItems(items: seq<Allocation>, confirmed: nat, used: int): Result<seq<Allocation>, PlanError> {
    if items == [] then Ok([])
    else
      var percentage :- PercentageOf(items, confirmed, used);
      var _ :- CheckPurchase(items[0]);
      var rest :- SettleItems(items[1..], confirmed, used + percentage);
      Ok([Settle(items[0], percentage)] + rest)
  }

  function WithItems(p: Plan, items: seq<Allocation>): Plan {
    var confirmed, spent := SumTargets(p.allocations), SumActual(items);
    p.(confirmed := confirmed, allocations := items, totalAllocated := spent,
       totalRemainder := confirmed - spent, saved := true)
  }

  function Recalculation(p: Plan, catalogue: Catalogue, now: int): Result<Plan, PlanError> {
    if p.allocations == [] then Err(EmptyPlan)
    else
      var items :- SettleItems(p.allocations, SumTargets(p.allocations), 0);
      Validate(WithItems(p, items), catalogue, now, true)
  }

  // ---------- The edits ----------

  // The fields of an edit request that are present; a request with none is refused before.
  datatype Changes = Changes(target: Option<Pos>, quantity: Option<Pos>, unitPrice: Option<Pos>)

  function IndexOf(items: seq<Allocation>, id: InstrumentId): (k: nat)
    ensures k <= |items|
    ensures k < |items| ==> items[k].instrument == id
    ensures forall i :: 0 <= i < k ==> items[i].instrument != id
  {
    if items == [] || items[0].instrument == id then 0 else 1 + IndexOf(items[1..], id)
  }

  const EDITED_SOURCE := "User-edited plan price"

  function ApplyChanges(a: Allocation, changes: Changes, now: int): Allocation {
    var targeted := if changes.target.Some? then a.(target := changes.target.value) else a;
    var priced := if changes.unitPrice.Some?
                  then targeted.(unitPrice := changes.unitPrice.value, mode := UserSupplied,
                                 source := EDITED_SOURCE, observedAt := now)
                  else targeted;
    if changes.quantity.Some? then priced.(quantity := changes.quantity.value)
    else if changes.target.Some? || changes.unitPrice.Some?
    then priced.(quantity := AffordableQuantity(priced.target, priced.unitPrice, priced.listing.increment))
    else priced
  }

  function EditedItems(items: seq<Allocation>, id: InstrumentId, changes: Changes, now: int): seq<Allocation> {
    var k := IndexOf(items, id);
    if k == |items| then items else items[k := ApplyChanges(items[k], changes, now)]
  }

  function EditPlan(p: Plan, id: InstrumentId, changes: Changes, catalogue: Catalogue, now: int)
    : Result<Plan, PlanError>
  {
    if IndexOf(p.allocations, id) == |p.allocations| then Err(UnknownInstrument)
    else Recalculation(p.(allocations := EditedItems(p.allocations, id, changes, now)), catalogue, now)
  }

  function Without(items: seq<Allocation>, id: InstrumentId): seq<Allocation> {
    if items == [] then []
    else if items[0].instrument == id then Without(items[1..], id)
    else [items[0]] + Without(items[1..], id)
  }

  // None when the removed item was the plan's last one.
  function RemoveFromPlan(p: Plan, id: InstrumentId, catalogue: Catalogue, now: int): Result<Option<Plan>, PlanError> {
    var remaining := Without(p.allocations, id);
    if |remaining| == |p.allocations| then Err(UnknownInstrument)
    else if remaining == [] then Ok(None)
    else
      var plan :- Recalculation(p.(allocations := remaining), catalogue, now);
      Ok(Some(plan))
  }

  // ---------- The working copy ----------

  class WorkingPlan {
    var confirmed: int
    var allocations: seq<Allocation>
    var totalAllocated: int
    var totalRemainder: int
    var saved: bool
    const currency: string
    const disclaimer: string

    constructor (p: Plan)
      ensures Value() == p
    {
      confirmed, allocations := p.confirmed, p.allocations;
      totalAllocated, totalRemainder, saved := p.totalAllocated, p.totalRemainder, p.saved;
      currency, disclaimer := p.currency, p.disclaimer;
    }

    function Value(): Plan
      reads this
    {
      Plan(confirmed, currency, allocations, totalAllocated, totalRemainder, disclaimer, saved)
    }

    // Rewrites every item in place, then the totals, then validates the result.
    method Recalculate(catalogue: Catalogue, now: int) returns (r: Result<Plan, PlanError>)
      modifies this
      ensures r == Recalculation(old(Value()), catalogue, now)
      ensures r.Ok? ==> Value() == r.value
    {
      if allocations == [] {
        return Err(EmptyPlan);
      }
      var total := SumTargets(allocations);
      var settled := SettleInPlace(total);
      match settled
      case Err(e) => r := Err(e);
      case Ok(spent) =>
        confirmed, totalAllocated, totalRemainder, saved := total, spent, total - spent, true;
        assert Value() == WithItems(old(Value()), allocations);
        r := Validate(Value(), catalogue, now, true);
    }

    // The loop over the items; its value is the total allocated.
    method SettleInPlace(total: nat) returns (r: Result<int, PlanError>)
      modifies this`allocations
      ensures match SettleItems(old(allocations), total, 0)
              case Err(e) => r == Err(e)
              case Ok(items) => allocations == items && r == Ok(SumActual(items))
    {
      ghost var given := allocations;
      var percentageUsed, totalAllocated, index := 0, 0, 0;
      SettlingStarts(given, total);
      while index < |allocations|
        invariant 0 <= index <= |allocations| == |given|
        invariant allocations[index..] == given[index..]
        invariant totalAllocated == SumActual(allocations[..index])
        invariant Settling(given, allocations[..index], index, total, percentageUsed)
      {
        var allocation := allocations[index];
        ghost var rest := given[index..];
        assert rest[0] == allocation && |rest| == |given| - index;
        var percentage;
        if index == |allocations| - 1 {
          percentage := WHOLE - percentageUsed;
        } else {
          if total == 0 {
            SettlingFails(given, allocations[..index], index, total, percentageUsed, DivisionUndefined);
            return Err(DivisionUndefined);
          }
          percentage := Share(allocation.target, total);
        }
        assert PercentageOf(rest, total, percentageUsed) == Ok(percentage);
        ghost var done := allocations[..index];
        var spent := SettleAt(index, percentage);
        if spent.Err? {
          SettlingFails(given, done, index, total, percentageUsed, spent.error);
          return spent;
        }
        SettlingAdvances(given, done, index, total, percentageUsed, percentage);
        SumActualAppend(done, allocations[index]);
        assert allocations[..index + 1] == done + [allocations[index]];
        totalAllocated := totalAllocated + spent.value;
        percentageUsed := percentageUsed + percentage;
        index := index + 1;
      }
      assert allocations[..index] == allocations;
      SettlingEnds(given, allocations, total, percentageUsed);
      r := Ok(totalAllocated);
    }

    // Checks one item's quantity and writes its percentage and amounts; yields what it spends.
    method SettleAt(index: nat, percentage: int) returns (r: Result<int, PlanError>)
      requires index < |allocations|
      modifies this`allocations
      ensures match CheckPurchase(old(allocations)[index])
              case Err(e) => r == Err(e) && allocations == old(allocations)
              case Ok(_) =>
                && allocations == old(allocations)[index := Settle(old(allocations)[index], percentage)]
                && r == Ok(allocations[index].actual)
    {
      var allocation := allocations[index];
      if allocation.quantity % allocation.listing.increment != 0 {
        return Err(OffIncrement);
      }
      var spent := Cost(allocation.quantity, allocation.unitPrice);
      if spent > allocation.target {
        return Err(ExceedsTarget);
      }
      allocations := allocations[index := allocation.(percentage := percentage, actual := spent,
                                                      remainder := allocation.target - spent)];
      r := Ok(spent);
    }
  }

  // The items before index are settled as `done`; the rest is still to be settled.
  ghost predicate Settling(given: seq<Allocation>, done: seq<Allocation>, index: nat, total: nat, used: int)
    requires index <= |given|
  {
    SettleItems(given, total, 0) == Prepend(done, SettleItems(given[index..], total, used))
  }

  function Prepend(done: seq<Allocation>, rest: Result<seq<Allocation>, PlanError>)
    : Result<seq<Allocation>, PlanError>
  {
    var items :- rest;
    Ok(done + items)
  }

  lemma SettlingStarts(given: seq<Allocation>, total: nat)
    ensures Settling(given, [], 0, total, 0)
  {
    assert given[0..] == given;
    var rest := SettleItems(given, total, 0);
    if rest.Ok? {
      assert [] + rest.value == rest.value;
    }
  }

  lemma SettlingEnds(given: seq<Allocation>, done: seq<Allocation>, total: nat, used: int)
    requires Settling(given, done, |given|, total, used)
    ensures SettleItems(given, total, 0) == Ok(done)
  {
    assert done + [] == done;
  }

  lemma SettlingFails(given: seq<Allocation>, done: seq<Allocation>, index: nat, total: nat, used: int, e: PlanError)
    requires index < |given| && Settling(given, done, index, total, used)
    requires PercentageOf(given[index..], total, used) == Err(e)
          || (PercentageOf(given[index..], total, used).Ok? && CheckPurchase(given[index]) == Err(e))
    ensures SettleItems(given, total, 0) == Err(e)
  {
  }

  lemma SettlingAdvances(given: seq<Allocation>, done: seq<Allocation>, index: nat, total: nat, used: int,
                         percentage: int)
    requires index < |given| && Settling(given, done, index, total, used)
    requires PercentageOf(given[index..], total, used) == Ok(percentage)
    requires CheckPurchase(given[index]).Ok?
    ensures Settling(given, done + [Settle(given[index], percentage)], index + 1, total, used + percentage)
  {
    assert given[index..][1..] == given[index + 1..];
    var rest := SettleItems(given[index + 1..], total, used + percentage);
    if rest.Ok? {
      var a := Settle(given[index], percentage);
      assert done + ([a] + rest.value) == (done + [a]) + rest.value;
    }
  }

  lemma {:induction false} SumActualAppend(items: seq<Allocation>, a: Allocation)
    ensures SumActual(items + [a]) == SumActual(items) + a.actual
  {
    if items == [] {
      assert items + [a] == [a];
    } else {
      SumActualAppend(items[1..], a);
      assert (items + [a])[1..] == items[1..] + [a];
    }
  }

  // Edits one pending item of a copy of the payload and recalculates the copy.
  method UpdateSavedAllocation(payload: Plan, id: InstrumentId, changes: Changes, catalogue: Catalogue, now: int)
    returns (r: Result<Plan, PlanError>)
    ensures r == EditPlan(payload, id, changes, catalogue, now)
  {
    var updated := new WorkingPlan(payload);
    var k := IndexOf(updated.allocations, id);
    if k == |updated.allocations| {
      return Err(UnknownInstrument);
    }
    var selected := updated.allocations[k];
    if changes.target.Some? {
      selected := selected.(target := changes.target.value);
    }
    if changes.unitPrice.Some? {
      selected := selected.(unitPrice := changes.unitPrice.value);
      selected := selected.(mode := UserSupplied, source := EDITED_SOURCE, observedAt := now);
    }
    if changes.quantity.Some? {
      selected := selected.(quantity := changes.quantity.value);
    } else if changes.target.Some? || changes.unitPrice.Some? {
      var steps := AffordableSteps(selected.target, selected.unitPrice, selected.listing.increment);
      selected := selected.(quantity := steps * selected.listing.increment);
    }
    updated.allocations := updated.allocations[k := selected];
    r := updated.Recalculate(catalogue, now);
  }

  // Drops one pending item of a copy of the payload and recalculates what is left.
  method RemoveSavedAllocation(payload: Plan, id: InstrumentId, catalogue: Catalogue, now: int)
    returns (r: Result<Option<Plan>, PlanError>)
    ensures r == RemoveFromPlan(payload, id, catalogue, now)
  {
    var updated := new WorkingPlan(payload);
    var remaining := Without(updated.allocations, id);
    if |remaining| == |updated.allocations| {
      return Err(UnknownInstrument);
    }
    if remaining == [] {
      return Ok(None);
    }
    updated.allocations := remaining;
    var plan := updated.Recalculate(catalogue, now);
    match plan
    case Ok(p) => r := Ok(Some(p));
    case Err(e) => r := Err(e);
  }
}

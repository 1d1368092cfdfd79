/**
 Budget allocations: percentages in basis points that must total 100, and the amount each
 takes of the monthly income, in cents.
 */
module BudgetAmounts {
  import opened Wrappers
  import opened Rounding

  const WHOLE := 10000

  // The request parser puts no sign on a percentage.
  datatype Input = Input(category: nat, percentage: int)

  datatype BudgetAllocation = BudgetAllocation(category: nat, percentage: int, amount: int)

  function SumInputs(items: seq<Input>): int {
    if items == [] then 0 else SumInputs(items[..|items| - 1]) + items[|items| - 1].percentage
  }

  function SumAmounts(rows: seq<BudgetAllocation>): int {
    if rows == [] then 0 else SumAmounts(rows[..|rows| - 1]) + rows[|rows| - 1].amount
  }

  function ValidateSum(items: seq<Input>): Result<seq<Input>, int> {
    var total := SumInputs(items);
    if total != WHOLE then Err(total) else Ok(items)
  }

  function Allocate(item: Input, income: int): BudgetAllocation {
    BudgetAllocation(item.category, item.percentage, HalfEven(income * item.percentage, WHOLE))
  }

  function AllocateAll(items: seq<Input>, income: int): seq<BudgetAllocation> {
    seq(|items|, i requires 0 <= i < |items| => Allocate(items[i], income))
  }

  class Budget {
    var allocations: seq<BudgetAllocation>

    constructor ()
      ensures allocations == []
    {
      allocations := [];
    }

    method ApplyAllocations(items: seq<Input>, income: int)
      modifies this
      ensures allocations == old(allocations) + AllocateAll(items, income)
    {
      ghost var before := allocations;
      for i := 0 to |items|
        invariant allocations == before + AllocateAll(items[..i], income)
      {
        var percentage := items[i].percentage;
        var amount := HalfEven(income * percentage, WHOLE);
        allocations := allocations + [BudgetAllocation(items[i].category, percentage, amount)];
      }
      assert items[..|items|] == items;
    }
  }

  // Each amount is its percentage of the income to the nearest cent, a half going to the even one;
  // only percentages that total 100 are let through, all of them.
  lemma AmountExactly(item: Input, income: int)
    ensures var row := Allocate(item, income);
            var e := 2 * (10_000 * row.amount - income * item.percentage);
            && row.category == item.category && row.percentage == item.percentage
            && -10_000 <= e <= 10_000 && ((e == 10_000 || e == -10_000) ==> row.amount % 2 == 0)
  {
    HalfEvenNearest(income * item.percentage, WHOLE);
  }

  lemma SumExactly(items: seq<Input>)
    ensures ValidateSum(items) == Ok(items) <==> SumInputs(items) == 10_000
    ensures ValidateSum(items).Err? <==> SumInputs(items) != 10_000
  {
  }

  lemma {:induction false} AmountsNearShares(items: seq<Input>, income: int)
    ensures -(WHOLE * |items|) <= 2 * (WHOLE * SumAmounts(AllocateAll(items, income)) - income * SumInputs(items))
    ensures 2 * (WHOLE * SumAmounts(AllocateAll(items, income)) - income * SumInputs(items)) <= WHOLE * |items|
  {
    if items != [] {
      var before, last := items[..|items| - 1], items[|items| - 1];
      AmountsNearShares(before, income);
      HalfEvenNearest(income * last.percentage, WHOLE);
      Distribute(income, SumInputs(before), last.percentage);
      var rows := AllocateAll(items, income);
      assert rows[..|rows| - 1] == AllocateAll(before, income);
    }
  }

  // Amounts of n allocations whose percentages pass the 100 check sum to the income within
  // n / 2 cents, whatever the sign of each.
  lemma AmountsNearIncome(items: seq<Input>, income: int)
    requires ValidateSum(items).Ok?
    ensures -|items| <= 2 * (SumAmounts(AllocateAll(items, income)) - income) <= |items|
  {
    AmountsNearShares(items, income);
  }
}

/**
 A holding and the folding of purchases into it by a rounded weighted average.

 Units: quantities in 1e-8, average and unit prices in 1e-4, fees in cents, dates as day
 numbers. Quantity times price is therefore exact in units of 1e-12.
 */
module Holdings {
  import opened Wrappers
  import opened Rounding

  datatype Holding = Holding(quantity: Pos, averagePrice: Pos, fees: nat, purchasedAt: Option<int>)

  datatype Purchase = Purchase(quantity: Pos, unitPrice: Pos, fees: nat, purchasedAt: int)

  function WeightedPrice(h: Holding, p: Purchase): int {
    HalfUp(h.quantity * h.averagePrice + p.quantity * p.unitPrice, h.quantity + p.quantity)
  }

  function EarlierOf(known: Option<int>, date: int): int {
    if known.Some? && known.value < date then known.value else date
  }

  function Fold(h: Option<Holding>, p: Purchase): Holding {
    match h
    case None => Holding(p.quantity, p.unitPrice, p.fees, Some(p.purchasedAt))
    case Some(held) =>
      WeightedPriceBetween(held, p);
      Holding(held.quantity + p.quantity, WeightedPrice(held, p), held.fees + p.fees,
              Some(EarlierOf(held.purchasedAt, p.purchasedAt)))
  }

  // The run of purchases, oldest first, into what was held before.
  function FoldAll(h: Option<Holding>, ps: seq<Purchase>): Option<Holding> {
    if ps == [] then h else Some(Fold(FoldAll(h, ps[..|ps| - 1]), ps[|ps| - 1]))
  }

  lemma FoldAllAppend(h: Option<Holding>, ps: seq<Purchase>, p: Purchase)
    ensures FoldAll(h, ps + [p]) == Some(Fold(FoldAll(h, ps), p))
  {
    assert (ps + [p])[..|ps|] == ps;
  }

  function Min(a: int, b: int): int { if a <= b then a else b }

  function Abs(x: int): nat { if x < 0 then -x else x }

  function Max(a: int, b: int): int { if a <= b then b else a }

  // The rounded average of two prices lies between them: rounding cannot leave an interval
  // whose ends are on the grid.
  lemma WeightedPriceBetween(h: Holding, p: Purchase)
    ensures Min(h.averagePrice, p.unitPrice) <= WeightedPrice(h, p) <= Max(h.averagePrice, p.unitPrice)
  {
    MeanBetween(h.quantity, h.averagePrice, p.quantity, p.unitPrice,
                Min(h.averagePrice, p.unitPrice), Max(h.averagePrice, p.unitPrice));
  }

  lemma MeanBetween(q: Pos, a: Pos, r: Pos, b: Pos, low: int, high: int)
    requires low <= a <= high && low <= b <= high
    ensures low <= HalfUp(q * a + r * b, q + r) <= high
  {
    var n, d := q * a + r * b, q + r;
    var m := HalfUp(n, d);
    HalfUpNearest(n, d);
    MeanScaled(q, a, r, b, low, high);
    MultiplesApart(m, high, d);
    MultiplesApart(m, low, d);
  }

  lemma MeanScaled(q: Pos, a: Pos, r: Pos, b: Pos, low: int, high: int)
    requires low <= a <= high && low <= b <= high
    ensures low * (q + r) <= q * a + r * b <= high * (q + r)
  {
    MulMonotone(low, a, q);
    MulMonotone(a, high, q);
    MulMonotone(low, b, r);
    MulMonotone(b, high, r);
    Distribute(low, q, r);
    Distribute(high, q, r);
  }

  // The first purchase is the holding; a later one adds quantity and fees, averages the price to the
  // nearest 0.0001, half up, and keeps the earliest date.
  predicate HeldAfter(held: Option<Holding>, p: Purchase, h: Holding) {
    if held.None? then
      && h.quantity == p.quantity && h.averagePrice == p.unitPrice
      && h.fees == p.fees && h.purchasedAt == Some(p.purchasedAt)
    else
      var exact := held.value.quantity * held.value.averagePrice + p.quantity * p.unitPrice;
      && h.quantity == held.value.quantity + p.quantity && h.fees == held.value.fees + p.fees
      && 0 < h.quantity + 2 * (h.averagePrice * h.quantity - exact) <= 2 * h.quantity
      && h.purchasedAt.Some? && h.purchasedAt.value <= p.purchasedAt
      && (held.value.purchasedAt.Some? ==> h.purchasedAt.value <= held.value.purchasedAt.value)
      && (h.purchasedAt == Some(p.purchasedAt) || h.purchasedAt == held.value.purchasedAt)
  }

  lemma FoldExactly(held: Option<Holding>, p: Purchase)
    ensures HeldAfter(held, p, Fold(held, p))
  {
    if held.Some? {
      HalfUpNearest(held.value.quantity * held.value.averagePrice + p.quantity * p.unitPrice,
                    held.value.quantity + p.quantity);
    }
  }

  // ---------- Whole runs ----------

  function TotalQuantity(ps: seq<Purchase>): nat {
    if ps == [] then 0 else TotalQuantity(ps[..|ps| - 1]) + ps[|ps| - 1].quantity
  }

  function TotalFees(ps: seq<Purchase>): nat {
    if ps == [] then 0 else TotalFees(ps[..|ps| - 1]) + ps[|ps| - 1].fees
  }

  // The exact money paid, in 1e-12.
  function TrueCost(ps: seq<Purchase>): int {
    if ps == [] then 0 else TrueCost(ps[..|ps| - 1]) + ps[|ps| - 1].quantity * ps[|ps| - 1].unitPrice
  }

  function HeldQuantity(h: Option<Holding>): nat {
    if h.None? then 0 else h.value.quantity
  }

  function HeldCost(h: Option<Holding>): int {
    if h.None? then 0 else h.value.quantity * h.value.averagePrice
  }

  function HeldFees(h: Option<Holding>): nat {
    if h.None? then 0 else h.value.fees
  }

  // The sum of the quantities held after each purchase that averaged, which is every purchase
  // but the one that created the holding.
  function RunningQuantities(h: Option<Holding>, ps: seq<Purchase>): nat {
    if ps == [] then 0
    else
      var before := ps[..|ps| - 1];
      RunningQuantities(h, before)
      + (if FoldAll(h, before).None? then 0 else HeldQuantity(h) + TotalQuantity(ps))
  }

  lemma {:induction false} QuantityAndFeesExact(h: Option<Holding>, ps: seq<Purchase>)
    ensures HeldQuantity(FoldAll(h, ps)) == HeldQuantity(h) + TotalQuantity(ps)
    ensures HeldFees(FoldAll(h, ps)) == HeldFees(h) + TotalFees(ps)
  {
    if ps != [] {
      QuantityAndFeesExact(h, ps[..|ps| - 1]);
    }
  }

  // One averaging step misstates the cost by at most half a price unit per unit held.
  lemma StepError(held: Holding, p: Purchase)
    ensures var after := Fold(Some(held), p);
            var exact := held.quantity * held.averagePrice + p.quantity * p.unitPrice;
            Abs(2 * (after.quantity * after.averagePrice - exact)) <= held.quantity + p.quantity
  {
    var exact, quantity := held.quantity * held.averagePrice + p.quantity * p.unitPrice, held.quantity + p.quantity;
    HalfUpNearest(exact, quantity);
    Commute(quantity, WeightedPrice(held, p));
  }

  lemma Commute(a: int, b: int)
    ensures a * b == b * a
  {
  }

  predicate CostWithinBound(before: Option<Holding>, ps: seq<Purchase>, after: Option<Holding>) {
    Abs(2 * (HeldCost(after) - HeldCost(before) - TrueCost(ps))) <= RunningQuantities(before, ps)
  }

  // Over any run, twice the error of quantity times average is at most the sum of the running
  // quantities: 0.00005 of a price unit per unit held, for each purchase that averaged.
  lemma {:induction false} AverageErrorBound(h: Option<Holding>, ps: seq<Purchase>)
    ensures CostWithinBound(h, ps, FoldAll(h, ps))
  {
    if ps != [] {
      var before, last := ps[..|ps| - 1], ps[|ps| - 1];
      AverageErrorBound(h, before);
      QuantityAndFeesExact(h, before);
      var held := FoldAll(h, before);
      if held.Some? {
        StepError(held.value, last);
      }
    }
  }

  // The average stays within the prices paid (and the average held before the run).
  lemma {:induction false} AverageBetween(h: Option<Holding>, ps: seq<Purchase>, low: int, high: int)
    requires h.Some? ==> low <= h.value.averagePrice <= high
    requires forall i :: 0 <= i < |ps| ==> low <= ps[i].unitPrice <= high
    ensures FoldAll(h, ps).Some? ==> low <= FoldAll(h, ps).value.averagePrice <= high
  {
    if ps != [] {
      var before := ps[..|ps| - 1];
      AverageBetween(h, before, low, high);
      if FoldAll(h, before).Some? {
        WeightedPriceBetween(FoldAll(h, before).value, ps[|ps| - 1]);
      }
    }
  }

  // A holding bought in whole increments is a whole number of increments.
  lemma {:induction false} WholeIncrements(ps: seq<Purchase>, increment: Pos)
    requires forall i :: 0 <= i < |ps| ==> ps[i].quantity % increment == 0
    ensures TotalQuantity(ps) % increment == 0
  {
    if ps != [] {
      var before := ps[..|ps| - 1];
      WholeIncrements(before, increment);
      SumOfMultiples(TotalQuantity(before), ps[|ps| - 1].quantity, increment);
    }
  }

  lemma SumOfMultiples(a: nat, b: nat, d: Pos)
    requires a % d == 0 && b % d == 0
    ensures (a + b) % d == 0
  {
    DivMod(a, d);
    DivMod(b, d);
    DivMod(a + b, d);
    var k := (a + b) / d - a / d - b / d;
    assert k * d + (a + b) % d == 0;
    if k >= 0 {
      MulMonotone(0, k, d);
    } else {
      MulMonotone(k, -1, d);
    }
  }

  lemma {:induction false} DateIsEarliest(h: Option<Holding>, ps: seq<Purchase>)
    requires ps != [] && (h.Some? ==> h.value.purchasedAt.None?)
    ensures var date := FoldAll(h, ps).value.purchasedAt;
            && date.Some?
            && (forall i :: 0 <= i < |ps| ==> date.value <= ps[i].purchasedAt)
            && exists i :: 0 <= i < |ps| && date.value == ps[i].purchasedAt
  {
    var before, last := ps[..|ps| - 1], |ps| - 1;
    if before != [] {
      DateIsEarliest(h, before);
      var known := FoldAll(h, before).value.purchasedAt.value;
      var i :| 0 <= i < |before| && known == before[i].purchasedAt;
      assert before[i] == ps[i];
      assert forall j :: 0 <= j < |before| ==> ps[j] == before[j];
    } else {
      assert FoldAll(h, ps).value.purchasedAt == Some(ps[last].purchasedAt);
    }
  }
}

/**
 Valuing the recorded holdings with the quotes at hand. Costs are exact in units of 1e-12,
 values and gains are rounded to cents, gain percentages to 0.0001.
 */
module Valuation {
  import opened Wrappers
  import opened Rounding
  import H = Holdings

  type InstrumentId = nat

  const CENT := 10_000_000_000

  // A quote states any positive decimal, here price / scale, and when it was observed.
  datatype Quote = Quote(price: Pos, scale: Pos, observedAt: int, source: string)

  datatype Position = Position(instrument: InstrumentId, holding: H.Holding, maxQuoteAge: int)

  datatype QuoteStatus = Disabled | Unavailable | Current | NeedsRefresh

  datatype Priced = Priced(value: int, gain: int, gainPercentage: int, observedAt: int, source: string)

  datatype Row = Row(position: Position, status: QuoteStatus, priced: Option<Priced>)

  datatype Totals = Totals(value: int, gain: int, gainPercentage: int)

  datatype Report = Report(rows: seq<Row>, complete: bool, pricedCount: nat, costBasis: int, totals: Option<Totals>)

  // ---------- Specification ----------

  function CostBasis(h: H.Holding): Pos {
    MulMonotone(1, h.averagePrice, h.quantity);
    assert h.quantity * h.averagePrice == h.averagePrice * h.quantity;
    h.quantity * h.averagePrice + h.fees * CENT
  }

  function Value(h: H.Holding, q: Quote): int {
    HalfUp(h.quantity * q.price, 1_000_000 * q.scale)
  }

  function Gain(value: int, cost: int): int {
    HalfUp(value * CENT - cost, CENT)
  }

  function GainPercentage(gain: int, cost: Pos): int {
    HalfUp(gain * CENT * 1_000_000, cost)
  }

  function StatusOf(p: Position, quote: Option<Quote>, enabled: bool, now: int): QuoteStatus {
    if !enabled then Disabled
    else if quote.None? then Unavailable
    else if now - quote.value.observedAt <= p.maxQuoteAge then Current else NeedsRefresh
  }

  function QuoteFor(quotes: map<InstrumentId, Quote>, id: InstrumentId): Option<Quote> {
    if id in quotes then Some(quotes[id]) else None
  }

  function RowFor(p: Position, quote: Option<Quote>, enabled: bool, now: int): Row {
    var cost := CostBasis(p.holding);
    Row(p, StatusOf(p, quote, enabled, now),
        if quote.None? then None
        else
          var value := Value(p.holding, quote.value);
          var gain := Gain(value, cost);
          Some(Priced(value, gain, GainPercentage(gain, cost), quote.value.observedAt, quote.value.source)))
  }

  function TotalCost(rows: seq<Row>): nat {
    if rows == [] then 0 else TotalCost(rows[..|rows| - 1]) + CostBasis(rows[|rows| - 1].position.holding)
  }

  function TotalValue(rows: seq<Row>): int {
    if rows == [] then 0
    else
      var last := rows[|rows| - 1].priced;
      TotalValue(rows[..|rows| - 1]) + (if last.Some? then last.value.value else 0)
  }

  function TotalRowGains(rows: seq<Row>): int {
    if rows == [] then 0
    else
      var last := rows[|rows| - 1].priced;
      TotalRowGains(rows[..|rows| - 1]) + (if last.Some? then last.value.gain else 0)
  }

  function PricedCount(rows: seq<Row>): nat {
    if rows == [] then 0 else PricedCount(rows[..|rows| - 1]) + (if rows[|rows| - 1].priced.Some? then 1 else 0)
  }

  predicate AllPriced(rows: seq<Row>) {
    forall i :: 0 <= i < |rows| ==> rows[i].priced.Some?
  }

  predicate RowsFor(rows: seq<Row>, positions: seq<Position>, quotes: map<InstrumentId, Quote>, enabled: bool,
                    now: int) {
    |rows| == |positions|
    && forall i :: 0 <= i < |rows| ==>
         rows[i] == RowFor(positions[i], QuoteFor(quotes, positions[i].instrument), enabled, now)
  }

  // ---------- The view ----------

  // `fetched` is None when the quote provider was unavailable.
  method Valuate(positions: seq<Position>, fetched: Option<map<InstrumentId, Quote>>, enabled: bool, now: int)
    returns (r: Report)
    ensures RowsFor(r.rows, positions, if enabled && fetched.Some? then fetched.value else map[], enabled, now)
    ensures r.complete <==> AllPriced(r.rows)
    ensures r.pricedCount == PricedCount(r.rows)
    ensures r.costBasis == HalfUp(TotalCost(r.rows), CENT)
    ensures r.totals.Some? <==> r.complete && r.rows != []
    ensures r.totals.Some? ==>
              && r.totals.value.value == TotalValue(r.rows)
              && r.totals.value.gain == Gain(TotalValue(r.rows), TotalCost(r.rows))
              && 1 <= TotalCost(r.rows)
              && r.totals.value.gainPercentage == GainPercentage(r.totals.value.gain, TotalCost(r.rows))
  {
    var quotes := map[];
    if enabled && fetched.Some? {
      quotes := fetched.value;
    }
    var rows: seq<Row>, totalCost: int, totalCurrent, pricedCount := [], 0, 0, 0;
    for i := 0 to |positions|
      invariant RowsFor(rows, positions[..i], quotes, enabled, now)
      invariant Accumulated(rows, totalCost, totalCurrent, pricedCount)
    {
      var position := positions[i];
      var holding := position.holding;
      var costBasis := CostBasis(holding);
      totalCost := totalCost + costBasis;
      var quote := QuoteFor(quotes, position.instrument);
      var priced := None;
      if quote.Some? {
        var currentValue := Value(holding, quote.value);
        var gain := Gain(currentValue, costBasis);
        var gainPercentage := GainPercentage(gain, costBasis);
        priced := Some(Priced(currentValue, gain, gainPercentage, quote.value.observedAt, quote.value.source));
        totalCurrent := totalCurrent + currentValue;
        pricedCount := pricedCount + 1;
      }
      var row := Row(position, StatusOf(position, quote, enabled, now), priced);
      AccumulatedAppend(rows, row);
      rows := rows + [row];
    }
    assert positions[..|positions|] == positions;
    PricedCountAll(rows);
    var complete := pricedCount == |positions|;
    var totals := None;
    if complete && positions != [] {
      TotalCostPositive(rows);
      var totalGain := Gain(totalCurrent, totalCost);
      // The total is a sum of whole cents already, so rounding it again leaves it.
      totals := Some(Totals(totalCurrent, totalGain, GainPercentage(totalGain, totalCost)));
    }
    r := Report(rows, complete, pricedCount, HalfUp(totalCost, CENT), totals);
  }

  predicate Accumulated(rows: seq<Row>, cost: int, value: int, count: int) {
    cost == TotalCost(rows) && value == TotalValue(rows) && count == PricedCount(rows)
  }

  lemma AccumulatedAppend(rows: seq<Row>, row: Row)
    ensures Accumulated(rows + [row],
                        TotalCost(rows) + CostBasis(row.position.holding),
                        TotalValue(rows) + (if row.priced.Some? then row.priced.value.value else 0),
                        PricedCount(rows) + (if row.priced.Some? then 1 else 0))
  {
    assert (rows + [row])[..|rows|] == rows;
  }

  lemma {:induction false} PricedCountAll(rows: seq<Row>)
    ensures PricedCount(rows) <= |rows|
    ensures PricedCount(rows) == |rows| <==> AllPriced(rows)
  {
    if rows != [] {
      var before := rows[..|rows| - 1];
      PricedCountAll(before);
      assert AllPriced(rows) <==> AllPriced(before) && rows[|rows| - 1].priced.Some?;
    }
  }

  lemma TotalCostPositive(rows: seq<Row>)
    requires rows != []
    ensures 1 <= TotalCost(rows)
  {
  }

  // ---------- What a row says ----------

  // A value is quantity times price in cents, to the nearest cent, half up. Quantities count 1e-8.
  lemma ValueExactly(h: H.Holding, q: Quote)
    ensures var cent := 1_000_000 * q.scale;
            0 < cent + 2 * (Value(h, q) * cent - h.quantity * q.price) <= 2 * cent
  {
    HalfUpNearest(h.quantity * q.price, 1_000_000 * q.scale);
  }

  // A gain is value less cost to the nearest cent, a half going away from zero, and a percentage is
  // the share of that gain in the cost, rounded in the same way to 0.0001. Costs count 1e-12.
  lemma GainExactly(value: int, cost: Pos)
    ensures var exact := value * 10_000_000_000 - cost;
            var e := 2 * (Gain(value, cost) * 10_000_000_000 - exact);
            -10_000_000_000 <= e <= 10_000_000_000
            && (e == 10_000_000_000 ==> 0 <= exact) && (e == -10_000_000_000 ==> exact < 0)
  {
    HalfUpNearest(value * CENT - cost, CENT);
  }

  lemma PercentageExactly(gain: int, cost: int)
    requires 1 <= cost
    ensures var exact := gain * 10_000_000_000 * 1_000_000;
            var e := 2 * (GainPercentage(gain, cost) * cost - exact);
            -cost <= e <= cost && (e == cost ==> 0 <= exact) && (e == -cost ==> exact < 0)
  {
    HalfUpNearest(gain * CENT * 1_000_000, cost);
  }

  // A row is priced exactly when its instrument has a quote, and then by that quote; its status says
  // whether market data is on, whether there is a quote, and whether the quote is young enough.
  lemma RowExactly(p: Position, quotes: map<InstrumentId, Quote>, enabled: bool, now: int)
    ensures var row := RowFor(p, QuoteFor(quotes, p.instrument), enabled, now);
            && row.position == p
            && (row.priced.Some? <==> p.instrument in quotes)
            && (row.status == Disabled <==> !enabled)
            && (row.status == Unavailable <==> enabled && p.instrument !in quotes)
            && (row.status == Current <==>
                  enabled && p.instrument in quotes && now <= quotes[p.instrument].observedAt + p.maxQuoteAge)
            && (p.instrument in quotes ==>
                  var q, priced, cost := quotes[p.instrument], row.priced.value, CostBasis(p.holding);
                  && priced.observedAt == q.observedAt && priced.source == q.source
                  && priced.value == Value(p.holding, q) && priced.gain == Gain(priced.value, cost)
                  && priced.gainPercentage == GainPercentage(priced.gain, cost))
  {
  }

  // The cost of a holding bought in a run of purchases is what was paid, fees included, to half a
  // price unit per unit of the running quantities.
  lemma CostIsWhatWasPaid(ps: seq<H.Purchase>)
    requires ps != []
    ensures var held := H.FoldAll(None, ps);
            && held.Some?
            && H.Abs(2 * (CostBasis(held.value) - (H.TrueCost(ps) + 10_000_000_000 * H.TotalFees(ps))))
               <= H.RunningQuantities(None, ps)
  {
    H.AverageErrorBound(None, ps);
    H.QuantityAndFeesExact(None, ps);
    var h := H.FoldAll(None, ps).value;
    assert h.fees * CENT == 10_000_000_000 * H.TotalFees(ps);
  }

  // ---------- Rounded parts and their whole ----------

  // A gain is the exact difference of value and cost, to half a cent.
  lemma GainNearExact(value: int, cost: int)
    ensures H.Abs(2 * (Gain(value, cost) * CENT - (value * CENT - cost))) <= CENT
  {
    HalfUpNearest(value * CENT - cost, CENT);
  }

  lemma {:induction false} RowGainsNearExact(rows: seq<Row>)
    requires AllPriced(rows)
    requires forall i :: 0 <= i < |rows| ==>
               rows[i].priced.value.gain == Gain(rows[i].priced.value.value, CostBasis(rows[i].position.holding))
    ensures H.Abs(2 * (TotalRowGains(rows) * CENT - (TotalValue(rows) * CENT - TotalCost(rows)))) <= |rows| * CENT
  {
    if rows != [] {
      var last := rows[|rows| - 1];
      RowGainsNearExact(rows[..|rows| - 1]);
      GainNearExact(last.priced.value.value, CostBasis(last.position.holding));
    }
  }

  // In a complete valuation of n holdings the row gains sum to the total gain within
  // (n + 1) / 2 cents.
  lemma RowGainsNearTotal(positions: seq<Position>, quotes: map<InstrumentId, Quote>, enabled: bool, now: int,
                          rows: seq<Row>)
    requires RowsFor(rows, positions, quotes, enabled, now) && AllPriced(rows)
    ensures 2 * H.Abs(TotalRowGains(rows) - Gain(TotalValue(rows), TotalCost(rows))) <= |rows| + 1
  {
    RowGainsNearExact(rows);
    GainNearExact(TotalValue(rows), TotalCost(rows));
  }

  // A gain percentage never contradicts its gain: it has the gain's sign or is zero, and is
  // the exact percentage of the rounded gain to half of 0.0001.
  lemma PercentageFollowsGain(gain: int, cost: Pos)
    ensures 0 <= gain ==> 0 <= GainPercentage(gain, cost)
    ensures gain <= 0 ==> GainPercentage(gain, cost) <= 0
    ensures H.Abs(2 * (GainPercentage(gain, cost) * cost - gain * CENT * 1_000_000)) <= cost
  {
    HalfUpNearest(gain * CENT * 1_000_000, cost);
    DivMod(H.Abs(gain) * CENT * 1_000_000, cost);
  }
}

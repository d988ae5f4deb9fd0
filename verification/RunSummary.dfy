// The execution-quality record that the components of a run share (src/app/run_summary.h:10-98), and the
// folds that say what a list of observations adds to it.
module RunSummary {
  import opened CommissionHistogram
  import opened Exchange
  import opened InstrumentSpec

  // A scale is never zero: the pipeline reads a configured zero as one.
  type Scale = n: nat | n > 0 witness 1

  // The conditions a fill is sorted by; a negative one is counted with the first.
  type Condition = b: int | b < 4

  const CONDITIONS := 4
  const PRICE_TICK_SIZE := 0.00001

  // What an observation is measured against.
  datatype Market = Market(lastMid: real, tickSize: real, contract: Contract, quantityScale: Scale) {
    function Tick(): (t: real)
      ensures t >= PRICE_TICK_SIZE && t > 0.0
    {
      MaxReal(tickSize, PRICE_TICK_SIZE)
    }
  }

  datatype Fill = Fill(side: Side, price: real, quantity: nat, condition: Condition) {
    function Row(): (r: nat)
      ensures r < CONDITIONS
    {
      if condition >= 0 then condition else 0
    }
  }

  datatype BucketTotals = BucketTotals(ticksQuantity: real, quantity: real, count: nat)

  datatype MarkoutTotals = MarkoutTotals(
    adverseSelection: real,
    quantity: real,
    ticksQuantity: real,
    usd: real,
    count: nat,
    byCondition: seq<BucketTotals>)
  {
    ghost predicate Valid() {
      |byCondition| == CONDITIONS
    }
  }

  datatype EdgeTotals = EdgeTotals(captured: real, quantity: real, ticksQuantity: real, usd: real)

  // What became of the orders the ledger audited.
  datatype OrderCounts = OrderCounts(
    audited: nat,
    filled: nat,
    cancelled: nat,
    rejected: nat,
    cancelledBeforeFill: nat,
    cancelledAfterFill: nat,
    invalidTransitions: nat,
    orphans: nat,
    quoteLifetime: nat,
    maxQuoteLifetime: nat,
    orderLifetime: nat,
    ordersThatFilled: nat,
    sizes: Histogram,
    minCommissionOrders: nat,
    minCommissionPaid: real)

  class ExecutionQuality {
    var markouts: MarkoutTotals
    var edges: EdgeTotals
    var orders: OrderCounts
    var maxAbsInventory: nat
    var inventorySignChanges: nat

    constructor ()
      ensures markouts == NO_MARKOUTS && edges == EdgeTotals(0.0, 0.0, 0.0, 0.0) && orders == NO_ORDERS
      ensures maxAbsInventory == 0 && inventorySignChanges == 0
    {
      markouts, edges, orders := NO_MARKOUTS, EdgeTotals(0.0, 0.0, 0.0, 0.0), NO_ORDERS;
      maxAbsInventory, inventorySignChanges := 0, 0;
    }
  }

  const NO_BUCKET := BucketTotals(0.0, 0.0, 0)
  const NO_MARKOUTS := MarkoutTotals(0.0, 0.0, 0.0, 0.0, 0, [NO_BUCKET, NO_BUCKET, NO_BUCKET, NO_BUCKET])
  const NO_ORDERS := OrderCounts(0, 0, 0, 0, 0, 0, 0, 0, 0, 0, 0, 0, EMPTY, 0, 0.0)

  // ------------------------------------------------------------------------------------------ markouts

  // How far the market came back against the fill.
  function MarkoutOf(o: Fill, m: Market): real {
    if o.side.Buy? then o.price - m.lastMid else m.lastMid - o.price
  }

  function MarkoutTicks(o: Fill, m: Market): real {
    MarkoutOf(o, m) / m.Tick() * o.quantity as real
  }

  function MarkoutUsd(o: Fill, m: Market): real {
    var floor := MaxReal(m.lastMid, 0.000000001);
    o.quantity as real / m.quantityScale as real * UnitNotionalAt(m.contract, m.lastMid) * MarkoutOf(o, m) / floor
  }

  // A markout in the source's figures: what came back of a buy or a sell, in ticks of at least a hundred
  // thousandth, and in the dollars that the quantity is worth over the scale.
  lemma MarkoutIs(o: Fill, m: Market)
    ensures MarkoutOf(o, m) == if o.side == Buy then o.price - m.lastMid else m.lastMid - o.price
    ensures MarkoutTicks(o, m) * (if m.tickSize > 0.00001 then m.tickSize else 0.00001)
         == MarkoutOf(o, m) * o.quantity as real
    ensures
      var floor := if m.lastMid > 0.000000001 then m.lastMid else 0.000000001;
      MarkoutUsd(o, m) * floor * m.quantityScale as real
      == o.quantity as real * UnitNotionalAt(m.contract, m.lastMid) * MarkoutOf(o, m)
  {
    TicksTimesTick(MarkoutOf(o, m), m.Tick(), o.quantity as real, MarkoutTicks(o, m));
    UsdTimesScale(o.quantity as real, m.quantityScale as real, UnitNotionalAt(m.contract, m.lastMid), MarkoutOf(o, m),
                  MaxReal(m.lastMid, 0.000000001), MarkoutUsd(o, m));
  }

  lemma TicksTimesTick(x: real, tick: real, q: real, ticks: real)
    requires tick > 0.0 && ticks == x / tick * q
    ensures ticks * tick == x * q
  {
    var r := x / tick;
    assert r * tick == x;
    assert r * q * tick == r * tick * q;
  }

  lemma UsdTimesScale(q: real, scale: real, unit: real, move: real, price: real, usd: real)
    requires scale > 0.0 && price > 0.0 && usd == q / scale * unit * move / price
    ensures usd * price * scale == q * unit * move
  {
    var units := q / scale;
    assert units * scale == q;
    assert usd * price == units * unit * move;
    assert units * unit * move * scale == units * scale * unit * move;
  }

  // The figures a markout adds to; the last three are one condition's own.
  datatype Figure = Adverse | Quantity | Ticks | Usd | Count | TicksIn(row: nat) | QuantityIn(row: nat) | CountIn(row: nat)

  // What one resolved fill adds to a figure.
  function Contribution(f: Figure, p: (Fill, Market)): real {
    var o, m := p.0, p.1;
    match f
    case Adverse => MarkoutOf(o, m)
    case Quantity => o.quantity as real
    case Ticks => MarkoutTicks(o, m)
    case Usd => MarkoutUsd(o, m)
    case Count => 1.0
    case TicksIn(row) => if o.Row() == row then MarkoutTicks(o, m) else 0.0
    case QuantityIn(row) => if o.Row() == row then o.quantity as real else 0.0
    case CountIn(row) => if o.Row() == row then 1.0 else 0.0
  }

  function Value(f: Figure, t: MarkoutTotals): real
    requires t.Valid()
    requires f.TicksIn? || f.QuantityIn? || f.CountIn? ==> f.row < CONDITIONS
  {
    match f
    case Adverse => t.adverseSelection
    case Quantity => t.quantity
    case Ticks => t.ticksQuantity
    case Usd => t.usd
    case Count => t.count as real
    case TicksIn(row) => t.byCondition[row].ticksQuantity
    case QuantityIn(row) => t.byCondition[row].quantity
    case CountIn(row) => t.byCondition[row].count as real
  }

  // A list of resolved fills, summed one figure at a time.
  function Sum(f: Figure, list: seq<(Fill, Market)>): real {
    if list == [] then 0.0 else Sum(f, list[..|list| - 1]) + Contribution(f, list[|list| - 1])
  }

  lemma {:induction false} SumConcat(f: Figure, a: seq<(Fill, Market)>, b: seq<(Fill, Market)>)
    ensures Sum(f, a + b) == Sum(f, a) + Sum(f, b)
  {
    if b == [] {
      assert a + b == a;
    } else {
      assert (a + b)[..|a + b| - 1] == a + b[..|b| - 1];
      SumConcat(f, a, b[..|b| - 1]);
    }
  }

  // Every figure moved by the sum of the list's contributions to it.
  ghost predicate Measured(before: MarkoutTotals, list: seq<(Fill, Market)>, after: MarkoutTotals) {
    && before.Valid() && after.Valid()
    && forall f: Figure :: (f.TicksIn? || f.QuantityIn? || f.CountIn? ==> f.row < CONDITIONS)
                             ==> Value(f, after) == Value(f, before) + Sum(f, list)
  }
}

// What our own fills change: the position, the quantity reserved for working orders, exposure, captured
// edge and the trade counters (src/app/fill_accounting.h, fill_accounting.cpp).
module FillAccounting {
  import opened Deferred
  import opened Exchange
  import opened InstrumentSpec
  import opened RunAccounting
  import opened RunSummary

  // ------------------------------------------------------------- the position and its reservations

  datatype Holdings = Holdings(position: int, pendingBuy: nat, pendingSell: nat) {
    // The position if every reservation filled.
    function Net(): int {
      position + pendingBuy - pendingSell
    }

    function PendingOn(side: Side): nat {
      if side.Buy? then pendingBuy else pendingSell
    }
  }

  // An order without a side reserves nothing.
  function Reserve(h: Holdings, side: Intent, quantity: nat): Holdings {
    match side
    case Buying => h.(pendingBuy := h.pendingBuy + quantity)
    case Selling => h.(pendingSell := h.pendingSell + quantity)
    case Unknown => h
  }

  // A release never takes out more than is reserved; without a side it takes from the sells or nothing.
  function Release(h: Holdings, side: Intent, quantity: nat, sellOnUnknown: bool): Holdings {
    if side.Buying? then h.(pendingBuy := MaxInt(0, h.pendingBuy - quantity))
    else if side.Selling? || sellOnUnknown then h.(pendingSell := MaxInt(0, h.pendingSell - quantity))
    else h
  }

  function AsIntent(side: Side): Intent {
    if side.Buy? then Buying else Selling
  }

  function FillHoldings(h: Holdings, side: Side, executed: nat): Holdings {
    Release(h.(position := h.position + side.Sign() * executed), AsIntent(side), executed, true)
  }

  // A fill moves the position by what its reservation gives back, so the projection the gate looks at
  // moves exactly by the part of the fill that was not reserved.
  lemma FillMovesNet(h: Holdings, side: Side, executed: nat)
    ensures FillHoldings(h, side, executed).Net()
         == h.Net() + side.Sign() * MaxInt(0, executed - h.PendingOn(side))
    ensures executed <= h.PendingOn(side) <==> FillHoldings(h, side, executed).Net() == h.Net()
  {
  }

  // A buy takes its quantity out of what is reserved to buy, and a sell out of what is reserved to sell, as far
  // as it goes; an order reserves on its own side, or nothing.
  lemma HoldingsAre(h: Holdings, q: nat)
    ensures FillHoldings(h, Buy, q) == Holdings(h.position + q, MaxInt(0, h.pendingBuy - q), h.pendingSell)
    ensures FillHoldings(h, Sell, q) == Holdings(h.position - q, h.pendingBuy, MaxInt(0, h.pendingSell - q))
    ensures Reserve(h, Buying, q) == Holdings(h.position, h.pendingBuy + q, h.pendingSell)
    ensures Reserve(h, Selling, q) == Holdings(h.position, h.pendingBuy, h.pendingSell + q)
    ensures Reserve(h, Unknown, q) == h
  {
  }

  // Reserving and releasing the same quantity leaves the holdings as they were.
  lemma ReleaseUndoesReserve(h: Holdings, side: Intent, quantity: nat)
    ensures Release(Reserve(h, side, quantity), side, quantity, false) == h
  {
  }

  // ---------------------------------------------------------------------------- the measured figures

  datatype FillContext = FillContext(
    lastMid: real,
    tickSize: real,
    contract: Contract,
    quantityScale: Scale,
    startingCashUsd: real,
    quoteCycle: nat)

  datatype Totals = Totals(
    makerNotionalUsd: real,
    takerNotionalUsd: real,
    tradeReports: nat,
    tradeReportQuantity: nat,
    maxAbsExposureUsd: real,
    exposureOverCollateralFills: nat)

  const NO_TOTALS := Totals(0.0, 0.0, 0, 0, 0.0, 0)

  // What the fill earned against the middle of its moment.
  function UnitEdge(r: ExecutionReport, c: FillContext): real {
    if r.side.Buy? then c.lastMid - r.price else r.price - c.lastMid
  }

  function EdgeTicks(r: ExecutionReport, c: FillContext): real {
    UnitEdge(r, c) / MaxReal(c.tickSize, PRICE_TICK_SIZE) * r.Executed() as real
  }

  function EdgeUsd(r: ExecutionReport, c: FillContext): real {
    r.Executed() as real / c.quantityScale as real * UnitNotionalAt(c.contract, r.price) * UnitEdge(r, c)
      / MaxReal(r.price, 0.000000001)
  }

  function ExposureUsd(position: int, r: ExecutionReport, c: FillContext): real {
    AbsInt(position) as real / c.quantityScale as real * UnitNotionalAt(c.contract, r.price)
  }

  // Which of the four conditions the fill is: its side, and whether it was at least a tick from the middle.
  function ConditionOf(r: ExecutionReport, c: FillContext): Condition {
    (if r.side.Buy? then 0 else 2)
      + (if AbsReal(r.price - c.lastMid) >= MaxReal(c.tickSize, PRICE_TICK_SIZE) then 0 else 1)
  }

  function NotionalOf(r: ExecutionReport, c: FillContext): real {
    FillNotionalUsd(c.contract, r.price, r.Executed(), c.quantityScale)
  }

  // The figures in the source's numbers: a buy earns what the middle is above its price and a sell what it is
  // below, in ticks of at least a hundred thousandth and in dollars of the units traded; and exposure is the
  // units held at the fill's price.
  lemma FiguresAre(r: ExecutionReport, c: FillContext, position: int)
    ensures UnitEdge(r, c) == if r.side == Buy then c.lastMid - r.price else r.price - c.lastMid
    ensures EdgeTicks(r, c) * (if c.tickSize > 0.00001 then c.tickSize else 0.00001)
         == UnitEdge(r, c) * r.Executed() as real
    ensures
      var floor := if r.price > 0.000000001 then r.price else 0.000000001;
      EdgeUsd(r, c) * floor * c.quantityScale as real
      == r.Executed() as real * UnitNotionalAt(c.contract, r.price) * UnitEdge(r, c)
    ensures ExposureUsd(position, r, c) * c.quantityScale as real
         == (if position < 0 then -position else position) as real * UnitNotionalAt(c.contract, r.price)
  {
    TicksTimesTick(UnitEdge(r, c), MaxReal(c.tickSize, PRICE_TICK_SIZE), r.Executed() as real, EdgeTicks(r, c));
    UsdTimesScale(r.Executed() as real, c.quantityScale as real, UnitNotionalAt(c.contract, r.price), UnitEdge(r, c),
                  MaxReal(r.price, 0.000000001), EdgeUsd(r, c));
    UnitsTimes(AbsInt(position) as real, c.quantityScale as real, UnitNotionalAt(c.contract, r.price),
               ExposureUsd(position, r, c));
  }

  // The condition is the side, and then whether the fill was nearer than a tick to the middle.
  lemma ConditionIs(r: ExecutionReport, c: FillContext)
    ensures
      var tick := if c.tickSize > 0.00001 then c.tickSize else 0.00001;
      var near := r.price - c.lastMid < tick && c.lastMid - r.price < tick;
      ConditionOf(r, c) == if r.side == Buy then (if near then 1 else 0) else if near then 3 else 2
  {
  }

  lemma UnitsTimes(q: real, scale: real, unit: real, usd: real)
    requires scale > 0.0 && usd == q / scale * unit
    ensures usd * scale == q * unit
  {
    var units := q / scale;
    assert units * scale == q;
    assert units * unit * scale == units * scale * unit;
  }

  // What a fill earns at once and what the market takes back by the horizon add up to the drift of the
  // middle between the two, whatever price the fill was at.
  lemma EdgeAndMarkoutAreDrift(r: ExecutionReport, c: FillContext, m: Market)
    ensures UnitEdge(r, c) + MarkoutOf(Fill(r.side, r.price, r.Executed(), ConditionOf(r, c)), m)
         == r.side.Sign() as real * (c.lastMid - m.lastMid)
  {
  }

  class FillAccounting {
    const quality: ExecutionQuality
    const accounting: RunAccounting
    var position: int
    var pendingBuyQuantity: nat
    var pendingSellQuantity: nat
    var totals: Totals

    function Held(): Holdings
      reads this
    {
      Holdings(position, pendingBuyQuantity, pendingSellQuantity)
    }

    constructor (quality: ExecutionQuality, accounting: RunAccounting)
      ensures this.quality == quality && this.accounting == accounting
      ensures Held() == Holdings(0, 0, 0) && totals == NO_TOTALS
    {
      this.quality, this.accounting := quality, accounting;
      position, pendingBuyQuantity, pendingSellQuantity, totals := 0, 0, 0, NO_TOTALS;
    }

    method ReserveQuantity(side: Intent, quantity: nat)
      modifies this`pendingBuyQuantity, this`pendingSellQuantity
      ensures Held() == Reserve(old(Held()), side, quantity)
    {
      if quantity == 0 {
        return;
      }
      if side.Buying? {
        pendingBuyQuantity := pendingBuyQuantity + quantity;
      } else if side.Selling? {
        pendingSellQuantity := pendingSellQuantity + quantity;
      }
    }

    method ReleaseQuantity(side: Intent, quantity: nat, sellOnUnknown: bool)
      modifies this`pendingBuyQuantity, this`pendingSellQuantity
      ensures Held() == Release(old(Held()), side, quantity, sellOnUnknown)
    {
      if side.Buying? {
        pendingBuyQuantity := pendingBuyQuantity - MinInt(pendingBuyQuantity, quantity);
      } else if side.Selling? || sellOnUnknown {
        pendingSellQuantity := pendingSellQuantity - MinInt(pendingSellQuantity, quantity);
      }
    }

    // The notional by liquidity role, the exposure peak, and the counters.
    method CountTrade(r: ExecutionReport, c: FillContext)
      modifies this`totals
      ensures totals.makerNotionalUsd
           == old(totals.makerNotionalUsd) + (if r.role.Maker? then NotionalOf(r, c) else 0.0)
      ensures totals.takerNotionalUsd
           == old(totals.takerNotionalUsd) + (if r.role.Taker? then NotionalOf(r, c) else 0.0)
      ensures totals.maxAbsExposureUsd == MaxReal(old(totals.maxAbsExposureUsd), ExposureUsd(position, r, c))
      ensures totals.exposureOverCollateralFills
           == old(totals.exposureOverCollateralFills)
            + (if c.startingCashUsd > 0.0 && ExposureUsd(position, r, c) > c.startingCashUsd then 1 else 0)
      ensures totals.tradeReports == old(totals.tradeReports) + 1
      ensures totals.tradeReportQuantity == old(totals.tradeReportQuantity) + r.Executed()
    {
      var notional := FillNotionalUsd(c.contract, r.price, r.Executed(), c.quantityScale);
      if r.role.Maker? {
        totals := totals.(makerNotionalUsd := totals.makerNotionalUsd + notional);
      } else if r.role.Taker? {
        totals := totals.(takerNotionalUsd := totals.takerNotionalUsd + notional);
      }
      var exposure := AbsInt(position) as real / c.quantityScale as real * UnitNotionalAt(c.contract, r.price);
      totals := totals.(maxAbsExposureUsd := MaxReal(totals.maxAbsExposureUsd, exposure));
      if c.startingCashUsd > 0.0 && exposure > c.startingCashUsd {
        totals := totals.(exposureOverCollateralFills := totals.exposureOverCollateralFills + 1);
      }
      totals := totals.(tradeReports := totals.tradeReports + 1,
                        tradeReportQuantity := totals.tradeReportQuantity + r.Executed());
    }

    method CaptureEdge(r: ExecutionReport, c: FillContext)
      modifies quality`edges
      ensures
        var e := old(quality.edges);
        quality.edges == EdgeTotals(e.captured + UnitEdge(r, c), e.quantity + r.Executed() as real,
                                    e.ticksQuantity + EdgeTicks(r, c), e.usd + EdgeUsd(r, c))
    {
      var edge := if r.side.Buy? then c.lastMid - r.price else r.price - c.lastMid;
      var executed := r.Executed() as real;
      var ticks := edge / MaxReal(c.tickSize, PRICE_TICK_SIZE) * executed;
      var usd := executed / c.quantityScale as real * UnitNotionalAt(c.contract, r.price) * edge
                 / MaxReal(r.price, 0.000000001);
      assert ticks == EdgeTicks(r, c) && usd == EdgeUsd(r, c);
      var e := quality.edges;
      quality.edges := EdgeTotals(e.captured + edge, e.quantity + executed, e.ticksQuantity + ticks, e.usd + usd);
    }

    // The position, its peak, and the times it changed sign without stopping at zero.
    method MovePosition(r: ExecutionReport)
      modifies this`position, quality`maxAbsInventory, quality`inventorySignChanges
      ensures position == old(position) + r.side.Sign() * r.Executed()
      ensures quality.maxAbsInventory == MaxInt(old(quality.maxAbsInventory), AbsInt(position))
      ensures quality.inventorySignChanges
           == old(quality.inventorySignChanges)
            + (if (old(position) < 0 < position) || (position < 0 < old(position)) then 1 else 0)
    {
      var previous := position;
      position := if r.side.Buy? then position + r.Executed() else position - r.Executed();
      quality.maxAbsInventory := MaxInt(quality.maxAbsInventory, AbsInt(position));
      if previous != 0 && position != 0 && (previous < 0) != (position < 0) {
        quality.inventorySignChanges := quality.inventorySignChanges + 1;
      }
    }

    // One of our Trade reports: the fill consumes the reservation made for it, and its markout is queued.
    method Apply(r: ExecutionReport, c: FillContext)
      modifies this, quality, accounting`pendingMarkouts
      ensures Held() == FillHoldings(old(Held()), r.side, r.Executed())
      ensures totals.tradeReports == old(totals.tradeReports) + 1
      ensures totals.tradeReportQuantity == old(totals.tradeReportQuantity) + r.Executed()
      ensures totals.makerNotionalUsd
           == old(totals.makerNotionalUsd) + (if r.role.Maker? then NotionalOf(r, c) else 0.0)
      ensures totals.takerNotionalUsd
           == old(totals.takerNotionalUsd) + (if r.role.Taker? then NotionalOf(r, c) else 0.0)
      ensures totals.maxAbsExposureUsd == MaxReal(old(totals.maxAbsExposureUsd), ExposureUsd(position, r, c))
      ensures totals.exposureOverCollateralFills
           == old(totals.exposureOverCollateralFills)
            + (if c.startingCashUsd > 0.0 && ExposureUsd(position, r, c) > c.startingCashUsd then 1 else 0)
      ensures
        var e := old(quality.edges);
        quality.edges == EdgeTotals(e.captured + UnitEdge(r, c), e.quantity + r.Executed() as real,
                                    e.ticksQuantity + EdgeTicks(r, c), e.usd + EdgeUsd(r, c))
      ensures quality.maxAbsInventory == MaxInt(old(quality.maxAbsInventory), AbsInt(position))
      ensures quality.inventorySignChanges
           == old(quality.inventorySignChanges)
            + (if (old(position) < 0 < position) || (position < 0 < old(position)) then 1 else 0)
      ensures quality.orders == old(quality.orders) && quality.markouts == old(quality.markouts)
      ensures accounting.pendingMarkouts
           == old(accounting.pendingMarkouts)
            + [Item(c.quoteCycle, Fill(r.side, r.price, r.Executed(), ConditionOf(r, c)))]
    {
      MovePosition(r);
      ReleaseQuantity(AsIntent(r.side), r.Executed(), true);
      CountTrade(r, c);
      CaptureEdge(r, c);
      var away := AbsReal(r.price - c.lastMid) >= MaxReal(c.tickSize, PRICE_TICK_SIZE);
      var condition := (if r.side.Buy? then 0 else 2) + (if away then 0 else 1);
      accounting.NoteFill(Fill(r.side, r.price, r.Executed(), condition), c.quoteCycle);
    }
  }
}

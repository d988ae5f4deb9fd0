// What fills do, in the report's own numbers (src/accounting/portfolio.cpp:29-163): raw quantities, prices
// and fees, with none of the intermediate values that a fill is computed from.
module FillFigures {
  import opened Exchange
  import opened InstrumentSpec
  import opened Reals
  import opened Leg
  import opened Account

  lemma PerScale(x: real, units: real, quantity: nat, scale: nat)
    requires scale > 0 && units * scale as real == quantity as real
    ensures x * quantity as real / scale as real == x * units
  {
    var n := scale as real;
    assert x * quantity as real == x * units * n;
    QuotientIs(x * quantity as real, n, x * units);
  }

  // What `quantity` raw units come to at a value for each unit.
  function Amount(value: real, quantity: nat, scale: nat): real
    requires scale > 0
  {
    value * quantity as real / scale as real
  }

  // The same, paid by a buy and received by a sell.
  function Dollars(s: int, value: real, quantity: nat, scale: nat): real
    requires scale > 0
  {
    if s > 0 then Amount(value, quantity, scale) else -Amount(value, quantity, scale)
  }

  lemma DollarsAre(s: int, value: real, quantity: nat, scale: nat, cost: real)
    requires (s == 1 || s == -1) && scale > 0 && cost == value * UnitsOf(quantity, scale)
    ensures s as real * cost == Dollars(s, value, quantity, scale)
  {
    UnitsTimesScale(quantity, scale);
    PerScale(value, UnitsOf(quantity, scale), quantity, scale);
  }

  // `m` is the mean of two prices weighted by raw quantities.
  ghost predicate IsMean(m: real, h: nat, a: real, q: nat, p: real) {
    m * (h as real + q as real) == a * h as real + p * q as real
  }

  // What a unit is worth in a trade at `price`.
  function UnitAt(t: Terms, price: real): real {
    if t.contract.unitNotionalUsd > 0.0 then t.contract.unitNotionalUsd else price * t.contract.multiplier
  }

  // The money of an opening fill and the fields it leaves alone.
  lemma OpeningFill(t: Terms, g: Leg, s: int, q: nat, price: real, ts: nat, fee: real)
    requires t.scale > 0 && (s == 1 || s == -1) && q > 0 && CloseQuantity(g.quantity, s, q) == 0
    ensures
      var n := FillLeg(t, g, s, q, price, ts, fee);
      && n.quantity == g.quantity + s * q && n.realized == g.realized - fee
      && n.cash == g.cash - fee - Dollars(s, UnitAt(t, price), q, t.scale)
      && IsMean(n.averagePrice, AbsInt(g.quantity), g.averagePrice, q, price)
      && n.entryTs == (if g.quantity == 0 then ts else g.entryTs)
      && n.entryFees == (if g.quantity == 0 then 0.0 else g.entryFees) + fee
  {
    PortionWhole(fee, q);
    DollarsAre(s, UnitAt(t, price), q, t.scale, OpenCost(t, q, price));
    AverageIsWeighted(t, AbsInt(g.quantity), g.averagePrice, q, price);
    assert Held(t, ChargeLeg(g, fee)) == Units(t, AbsInt(g.quantity));
  }

  // From flat, a fill of `q` raw units pays the price times the multiplier, or the face value, for each
  // unit, and its fee.
  lemma OpensFromFlat(t: Terms, g: Leg, s: int, q: nat, price: real, ts: nat, fee: real)
    requires t.scale > 0 && (s == 1 || s == -1) && q > 0 && g.quantity == 0
    ensures
      var n := FillLeg(t, g, s, q, price, ts, fee);
      && n.quantity == s * q && n.averagePrice == price && n.entryTs == ts && n.entryFees == fee
      && n.realized == g.realized - fee && n.cash == g.cash - fee - Dollars(s, UnitAt(t, price), q, t.scale)
  {
    OpeningFill(t, g, s, q, price, ts, fee);
    var m := FillLeg(t, g, s, q, price, ts, fee).averagePrice;
    CancelRight(m, price, q as real);
  }

  // The same written out: what a buy or a sell of `q` raw units from flat does to cash.
  lemma FromFlatPays(t: Terms, g: Leg, q: nat, price: real, ts: nat, fee: real)
    requires t.scale > 0 && q > 0 && g.quantity == 0
    ensures t.contract.unitNotionalUsd <= 0.0 ==>
              var dollars := price * t.contract.multiplier * q as real / t.scale as real;
              && FillLeg(t, g, 1, q, price, ts, fee).cash == g.cash - dollars - fee
              && FillLeg(t, g, -1, q, price, ts, fee).cash == g.cash + dollars - fee
    ensures t.contract.unitNotionalUsd > 0.0 ==>
              var dollars := t.contract.unitNotionalUsd * q as real / t.scale as real;
              && FillLeg(t, g, 1, q, price, ts, fee).cash == g.cash - dollars - fee
              && FillLeg(t, g, -1, q, price, ts, fee).cash == g.cash + dollars - fee
  {
    OpensFromFlat(t, g, 1, q, price, ts, fee);
    OpensFromFlat(t, g, -1, q, price, ts, fee);
  }

  // Adding to a position held the same way: the new price is the mean weighted by raw quantities, the
  // carried fees grow by the fee, and the clock stays.
  lemma AddsToHeld(t: Terms, g: Leg, s: int, q: nat, price: real, ts: nat, fee: real)
    requires t.scale > 0 && (s == 1 || s == -1) && q > 0
    requires if s > 0 then g.quantity > 0 else g.quantity < 0
    ensures
      var n, h := FillLeg(t, g, s, q, price, ts, fee), AbsInt(g.quantity);
      && n.quantity == g.quantity + s * q && n.entryTs == g.entryTs && n.entryFees == g.entryFees + fee
      && n.realized == g.realized - fee && n.cash == g.cash - fee - Dollars(s, UnitAt(t, price), q, t.scale)
      && IsMean(n.averagePrice, h, g.averagePrice, q, price)
  {
    OpeningFill(t, g, s, q, price, ts, fee);
  }

  lemma AverageIsWeighted(t: Terms, h: nat, a: real, q: nat, p: real)
    requires t.scale > 0 && q > 0
    ensures IsMean(Average(Units(t, h), a, Units(t, q), p), h, a, q, p)
  {
    UnitsTimesScale(h, t.scale);
    UnitsTimesScale(q, t.scale);
    UnitsPositive(q, t.scale);
    WeightedMean(Units(t, h), a, Units(t, q), p, h as real, q as real, t.scale as real);
  }

  lemma WeightedMean(e: real, a: real, o: real, p: real, h: real, q: real, n: real)
    requires e + o > 0.0 && e * n == h && o * n == q
    ensures Average(e, a, o, p) * (h + q) == a * h + p * q
  {
    var m := Average(e, a, o, p);
    assert m * (e + o) == e * a + o * p;
    assert m * (h + q) == m * (e + o) * n == (e * a + o * p) * n;
    assert e * a * n == a * (e * n) && o * p * n == p * (o * n);
  }

  // Closing `q` of the raw units held the other way: a price-quoted holding is settled at the price and a
  // fixed face one at its face times price over entry; the result is the change since entry, the carried fees
  // keep what belongs to the rest, and price and clock stay.
  lemma ClosesHeld(t: Terms, g: Leg, s: int, q: nat, price: real, ts: nat, fee: real)
    requires t.scale > 0 && (s == 1 || s == -1) && g.averagePrice > 0.0
    requires 0 < q && if s > 0 then -g.quantity >= q else g.quantity >= q
    ensures
      var n, h, a := FillLeg(t, g, s, q, price, ts, fee), AbsInt(g.quantity), g.averagePrice;
      && n.quantity == g.quantity + s * q && n.entryTs == g.entryTs && n.averagePrice == a
      && n.entryFees * h as real == g.entryFees * (h - q) as real
      && n.cash == g.cash - fee - Dollars(s, SettledAt(t, a, price), q, t.scale)
      && n.realized == g.realized - fee + Dollars(s, UnitAt(t, a) - SettledAt(t, a, price), q, t.scale)
  {
    var charged := ChargeLeg(g, fee);
    assert FillLeg(t, g, s, q, price, ts, fee) == CloseLeg(t, charged, s, q, price);
    ClosingMoney(t, charged, s, q, price);
    RemainingFees(t, charged, q);
  }

  // What a unit is settled at when it was entered at `a`.
  function SettledAt(t: Terms, a: real, price: real): real
    requires a > 0.0
  {
    if t.contract.unitNotionalUsd > 0.0 then t.contract.unitNotionalUsd * (price / a) else price * t.contract.multiplier
  }

  lemma ClosingMoney(t: Terms, g: Leg, s: int, q: nat, price: real)
    requires t.scale > 0 && (s == 1 || s == -1) && g.averagePrice > 0.0
    ensures
      var n, a := CloseLeg(t, g, s, q, price), g.averagePrice;
      && n.cash == g.cash - Dollars(s, SettledAt(t, a, price), q, t.scale)
      && n.realized == g.realized + Dollars(s, UnitAt(t, a) - SettledAt(t, a, price), q, t.scale)
  {
    var entry, value := UnitAt(t, g.averagePrice), SettledAt(t, g.averagePrice, price);
    var now, cost := ValueNow(t, g, q, price), ValueAtEntry(t, g, q);
    WorthNow(t, g, q, price);
    DollarsAre(s, value, q, t.scale, now);
    Difference(entry, value, Units(t, q), cost, now);
    DollarsAre(s, entry - value, q, t.scale, cost - now);
  }

  lemma Difference(a: real, b: real, units: real, x: real, y: real)
    requires x == a * units && y == b * units
    ensures x - y == (a - b) * units
  {
  }

  lemma WorthNow(t: Terms, g: Leg, q: nat, price: real)
    requires g.averagePrice > 0.0
    ensures ValueNow(t, g, q, price) == SettledAt(t, g.averagePrice, price) * Units(t, q)
  {
    var units, ratio := Units(t, q), price / g.averagePrice;
    if t.contract.unitNotionalUsd > 0.0 {
      assert t.contract.unitNotionalUsd * units * ratio == t.contract.unitNotionalUsd * ratio * units;
    } else {
      PriceQuotedValue(t.contract, units, g.averagePrice, price);
      assert units * price * t.contract.multiplier == price * t.contract.multiplier * units;
    }
  }

  lemma RemainingFees(t: Terms, g: Leg, q: nat)
    requires t.scale > 0 && 0 < q <= AbsInt(g.quantity)
    ensures
      var h := AbsInt(g.quantity);
      (g.entryFees - EntryFeeShare(t, g, q)) * h as real == g.entryFees * (h - q) as real
  {
    var h := AbsInt(g.quantity);
    UnitsTimesScale(h, t.scale);
    UnitsTimesScale(q, t.scale);
    UnitsPositive(h, t.scale);
    var share := EntryFeeShare(t, g, q);
    RestOfShare(g.entryFees, share, Units(t, q), Units(t, h), q as real, h as real, t.scale as real, (h - q) as real);
  }

  lemma RestOfShare(f: real, share: real, c: real, e: real, q: real, h: real, n: real, rest: real)
    requires e > 0.0 && n > 0.0 && c * n == q && e * n == h && share == f * (c / e) && rest == h - q
    ensures (f - share) * h == f * rest
  {
    var x := c / e;
    assert x * e == c;
    assert f * x * h == f * (x * e * n) == f * q;
  }

  // ------------------------------------------------------------------------------------ whole runs

  lemma DollarsAdd(s: int, value: real, a: nat, b: nat, scale: nat)
    requires scale > 0
    ensures Dollars(s, value, a + b, scale) == Dollars(s, value, a, scale) + Dollars(s, value, b, scale)
  {
    assert (a + b) as real == a as real + b as real;
    Distribute(value, a as real, b as real);
    QuotientAdds(value * a as real, value * b as real, scale as real);
  }

  // What an execution paid for what it traded.
  function PaidFor(t: Terms, r: ExecutionReport): real
    requires t.scale > 0
  {
    if !r.execType.Trade? then 0.0
    else if r.side.Buy? then Amount(UnitAt(t, r.price), r.quantity, t.scale)
    else -Amount(UnitAt(t, r.price), r.quantity, t.scale)
  }

  // On a price-quoted instrument every fill, whatever it closes and opens, pays its price times the
  // multiplier for each unit (the "previous behaviour" of src/accounting/portfolio.cpp:51-53).
  lemma QuotedFillPays(t: Terms, g: Leg, s: int, q: nat, price: real, ts: nat, fee: real)
    requires t.scale > 0 && (s == 1 || s == -1) && q > 0
    requires t.contract.unitNotionalUsd <= 0.0 && PricedLeg(g)
    ensures FillLeg(t, g, s, q, price, ts, fee).cash == g.cash - fee - Dollars(s, UnitAt(t, price), q, t.scale)
  {
    var c, charged := CloseQuantity(g.quantity, s, q), ChargeLeg(g, fee);
    DollarsAdd(s, UnitAt(t, price), c, q - c, t.scale);
    var closed := QuotedClose(t, charged, s, c, price);
    var n := QuotedOpen(t, closed, s, q - c, price, ts, Portion(fee, q - c, q));
  }

  lemma QuotedClose(t: Terms, g: Leg, s: int, c: nat, price: real) returns (closed: Leg)
    requires t.scale > 0 && (s == 1 || s == -1)
    requires t.contract.unitNotionalUsd <= 0.0 && (c > 0 ==> g.averagePrice > 0.0)
    ensures closed == if c > 0 then CloseLeg(t, g, s, c, price) else g
    ensures closed.cash == g.cash - Dollars(s, UnitAt(t, price), c, t.scale)
  {
    closed := if c > 0 then CloseLeg(t, g, s, c, price) else g;
    if c > 0 {
      ClosingMoney(t, g, s, c, price);
      assert SettledAt(t, g.averagePrice, price) == UnitAt(t, price);
    } else {
      NothingPaid(s, UnitAt(t, price), t.scale);
    }
  }

  lemma QuotedOpen(t: Terms, g: Leg, s: int, o: nat, price: real, ts: nat, fee: real) returns (grown: Leg)
    requires t.scale > 0 && (s == 1 || s == -1)
    ensures grown == if o > 0 then OpenLeg(t, g, s, o, price, ts, fee) else g
    ensures grown.cash == g.cash - Dollars(s, UnitAt(t, price), o, t.scale)
  {
    grown := if o > 0 then OpenLeg(t, g, s, o, price, ts, fee) else g;
    if o > 0 {
      DollarsAre(s, UnitAt(t, price), o, t.scale, OpenCost(t, o, price));
    } else {
      NothingPaid(s, UnitAt(t, price), t.scale);
    }
  }

  // What a run's executions paid, and its fees.
  function PaidBy(st: Settings, e: Event): real
    requires st.terms.scale > 0
  {
    if e.Fill? then PaidFor(st.terms, e.report) else 0.0
  }

  function Paid(st: Settings, events: seq<Event>): real
    requires st.terms.scale > 0
  {
    if events == [] then 0.0 else Paid(st, events[..|events| - 1]) + PaidBy(st, events[|events| - 1])
  }

  function FeeBy(e: Event): real {
    match e
    case Fee(fee) => fee
    case Fill(r) => if r.execType.Trade? && r.quantity > 0 then r.fee else 0.0
    case _ => 0.0
  }

  function Fees(events: seq<Event>): real {
    if events == [] then 0.0 else Fees(events[..|events| - 1]) + FeeBy(events[|events| - 1])
  }

  // What a run's executions of one symbol add up to, signed.
  function NetBy(e: Event, symbol: string): int {
    if e.Fill? && e.report.execType.Trade? && e.report.symbol == symbol
    then (if e.report.side.Buy? then e.report.quantity as int else -(e.report.quantity as int))
    else 0
  }

  function Net(events: seq<Event>, symbol: string): int {
    if events == [] then 0 else Net(events[..|events| - 1], symbol) + NetBy(events[|events| - 1], symbol)
  }

  lemma NothingPaid(s: int, value: real, scale: nat)
    requires scale > 0
    ensures Dollars(s, value, 0, scale) == 0.0
  {
  }

  lemma ReportPays(st: Settings, a: Account, r: ExecutionReport)
    requires st.terms.Valid() && Priced(a) && st.terms.contract.unitNotionalUsd <= 0.0 && Executes(r)
    ensures ApplyReport(st, a, r).cash == a.cash - (r.fee + PaidFor(st.terms, r))
  {
    var g := LegOf(a, r.symbol);
    assert g.quantity != 0 ==> r.symbol in a.positions;
    QuotedFillPays(st.terms, g, r.side.Sign(), r.quantity, r.price, r.ts, r.fee);
  }

  lemma StepPays(st: Settings, a: Account, e: Event)
    requires st.terms.Valid() && Priced(a) && st.terms.contract.unitNotionalUsd <= 0.0
    ensures Step(st, a, e).cash == a.cash - PaidBy(st, e) - FeeBy(e) + FlowOf(st, a, e)
  {
    if e.Fill? {
      if Executes(e.report) {
        ReportPays(st, a, e.report);
      } else if e.report.execType.Trade? {
        NothingPaid(1, UnitAt(st.terms, e.report.price), st.terms.scale);
      }
    }
  }

  // Over any run at positive prices on a price-quoted instrument, cash is what the account began with, less
  // what its fills paid at their own prices, less its fees, plus its flows.
  lemma {:induction false} CashIsTraded(st: Settings, events: seq<Event>)
    requires st.terms.Valid() && st.terms.contract.unitNotionalUsd <= 0.0
    requires forall i :: 0 <= i < |events| && events[i].Fill? ==> events[i].report.price > 0.0
    ensures Run(st, events).cash == st.initialCash - Paid(st, events) - Fees(events) + Flows(st, events)
  {
    if events != [] {
      var before := events[..|events| - 1];
      CashIsTraded(st, before);
      RunIsPriced(st, before);
      StepPays(st, Run(st, before), events[|events| - 1]);
    }
  }

  lemma QuantityMoves(t: Terms, g: Leg, s: int, q: nat, price: real, ts: nat, fee: real)
    requires (s == 1 || s == -1) && q > 0
    ensures FillLeg(t, g, s, q, price, ts, fee).quantity == if s > 0 then g.quantity + q else g.quantity - q
  {
  }

  lemma StepMoves(st: Settings, a: Account, e: Event, symbol: string)
    ensures
      var b := Step(st, a, e);
      && PositionOf(b, symbol).quantity == PositionOf(a, symbol).quantity + NetBy(e, symbol)
      && PositionOf(b, symbol).tradedQuantity == PositionOf(a, symbol).tradedQuantity + AbsInt(NetBy(e, symbol))
  {
    if e.Fill? && Executes(e.report) {
      var r := e.report;
      QuantityMoves(st.terms, LegOf(a, r.symbol), r.side.Sign(), r.quantity, r.price, r.ts, r.fee);
    }
  }

  function Traded(events: seq<Event>, symbol: string): nat {
    if events == [] then 0
    else Traded(events[..|events| - 1], symbol) + AbsInt(NetBy(events[|events| - 1], symbol))
  }

  // The position in a symbol is what its executions add up to, on any instrument and at any prices.
  lemma {:induction false} QuantityIsTraded(st: Settings, events: seq<Event>, symbol: string)
    ensures PositionOf(Run(st, events), symbol).quantity == Net(events, symbol)
    ensures PositionOf(Run(st, events), symbol).tradedQuantity == Traded(events, symbol)
  {
    if events != [] {
      var before := events[..|events| - 1];
      QuantityIsTraded(st, before, symbol);
      StepMoves(st, Run(st, before), events[|events| - 1], symbol);
    }
  }

  // The executions of one liquidity role, and their fees.
  function InRole(e: Event, role: LiquidityRole): bool {
    e.Fill? && e.report.execType.Trade? && e.report.quantity > 0 && e.report.role == role
  }

  function RoleTrades(events: seq<Event>, role: LiquidityRole): nat {
    if events == [] then 0
    else RoleTrades(events[..|events| - 1], role) + if InRole(events[|events| - 1], role) then 1 else 0
  }

  function RoleFees(events: seq<Event>, role: LiquidityRole): real {
    if events == [] then 0.0
    else
      var e := events[|events| - 1];
      RoleFees(events[..|events| - 1], role) + if InRole(e, role) then e.report.fee else 0.0
  }

  lemma {:induction false} FeesAreCounted(st: Settings, events: seq<Event>)
    ensures
      var a := Run(st, events);
      && a.feesPaid == Fees(events)
      && a.makerFees == RoleFees(events, Maker) && a.makerTrades == RoleTrades(events, Maker)
      && a.takerFees == RoleFees(events, Taker) && a.takerTrades == RoleTrades(events, Taker)
  {
    if events != [] {
      FeesAreCounted(st, events[..|events| - 1]);
    }
  }

  // A marked holding: signed raw quantity times price times multiplier over the scale, or for a fixed face its
  // face times the price over the entry.
  lemma ValueIsMarked(st: Settings, p: Position, symbol: string, prices: map<string, real>)
    requires st.terms.Valid() && symbol in prices && p.averagePrice > 0.0
    ensures ValueOf(st, p, symbol, prices)
         == Dollars(if p.quantity > 0 then 1 else -1, SettledAt(st.terms, p.averagePrice, prices[symbol]),
                    AbsInt(p.quantity), st.terms.scale)
    ensures CostOf(st, p)
         == Dollars(if p.quantity > 0 then 1 else -1, UnitAt(st.terms, p.averagePrice), AbsInt(p.quantity),
                    st.terms.scale)
  {
    var t, g, s := st.terms, AsLeg(p, 0.0, 0.0), if p.quantity > 0 then 1 else -1;
    var n := AbsInt(p.quantity);
    WorthNow(t, g, n, prices[symbol]);
    DollarsAre(s, SettledAt(t, p.averagePrice, prices[symbol]), n, t.scale, ValueNow(t, g, n, prices[symbol]));
    DollarsAre(s, UnitAt(t, p.averagePrice), n, t.scale, ValueAtEntry(t, g, n));
    NothingPaid(s, SettledAt(t, p.averagePrice, prices[symbol]), t.scale);
    NothingPaid(s, UnitAt(t, p.averagePrice), t.scale);
  }

  // One interval of funding: the rate on the signed value of the holding at the mark.
  lemma FlowIsCharged(st: Settings, p: Position, rate: real, mark: real)
    requires st.terms.Valid() && (st.terms.contract.unitNotionalUsd > 0.0 || mark > 0.0)
    ensures PositionFlow(st, p, rate, mark)
         == Dollars(if p.quantity > 0 then 1 else -1, UnitAt(st.terms, mark), AbsInt(p.quantity), st.terms.scale) * rate
  {
    var s, n := if p.quantity > 0 then 1 else -1, AbsInt(p.quantity);
    DollarsAre(s, UnitAt(st.terms, mark), n, st.terms.scale, UnitAt(st.terms, mark) * Units(st.terms, n));
    NothingPaid(s, UnitAt(st.terms, mark), st.terms.scale);
  }

  // The record of a round trip: what was closed, between which prices and times, what it gained, and the
  // fees that belong to it: of this fill's by what it closed, of the carried ones by what was held.
  ghost predicate Recorded(t: Terms, g: Leg, r: ExecutionReport, c: nat, d: ClosedTrade)
    requires t.Valid() && Executes(r) && g.averagePrice > 0.0
  {
    && d.symbol == r.symbol && d.side == (if r.side.Buy? then Sell else Buy)
    && d.entryPrice == g.averagePrice && d.exitPrice == r.price && d.entryTs == g.entryTs && d.exitTs == r.ts
    && PaidOff(t, g, r, c, d)
  }

  ghost predicate PaidOff(t: Terms, g: Leg, r: ExecutionReport, c: nat, d: ClosedTrade)
    requires t.Valid() && Executes(r) && g.averagePrice > 0.0
  {
    var gained := UnitAt(t, g.averagePrice) - SettledAt(t, g.averagePrice, r.price);
    && d.quantity * t.scale as real == c as real
    && d.pnl == Dollars(if r.side.Buy? then 1 else -1, gained, c, t.scale)
    && FeeSplits(d.fee, r.fee, c, r.quantity, g.entryFees, AbsInt(g.quantity))
  }

  ghost predicate FeeSplits(fee: real, paid: real, closed: nat, filled: nat, carried: real, held: nat)
    requires filled > 0
  {
    (fee - paid * closed as real / filled as real) * held as real == carried * closed as real
  }

  lemma TradeIsRecorded(st: Settings, a: Account, r: ExecutionReport, c: nat)
    requires st.terms.Valid() && Executes(r) && LegOf(a, r.symbol).averagePrice > 0.0
    requires if r.side.Buy? then LegOf(a, r.symbol).quantity < 0 else LegOf(a, r.symbol).quantity > 0
    requires c == MinInt(AbsInt(LegOf(a, r.symbol).quantity), r.quantity)
    ensures Recorded(st.terms, LegOf(a, r.symbol), r, c, TradeOf(st, a, r, c))
    ensures st.recordTrades ==> ApplyReport(st, a, r).closedTrades == a.closedTrades + [TradeOf(st, a, r, c)]
    ensures !st.recordTrades ==> ApplyReport(st, a, r).closedTrades == a.closedTrades
  {
    TradePaysOff(st.terms, LegOf(a, r.symbol), r, c, TradeOf(st, a, r, c));
  }

  lemma TradePaysOff(t: Terms, g: Leg, r: ExecutionReport, c: nat, d: ClosedTrade)
    requires t.Valid() && Executes(r) && g.averagePrice > 0.0
    requires c == CloseQuantity(g.quantity, r.side.Sign(), r.quantity) > 0
    requires d.quantity == Units(t, c) && d.pnl == ClosePnl(t, g, r.side.Sign(), c, r.price)
    requires d.fee == ClosedFee(t, g, r.side.Sign(), r.quantity, r.fee)
    ensures PaidOff(t, g, r, c, d)
  {
    UnitsTimesScale(c, t.scale);
    PnlIs(t, g, r.side.Sign(), c, r.price);
    FeeOfClose(t, g, r.side.Sign(), r.quantity, c, r.fee, d.fee);
  }

  lemma FeeOfClose(t: Terms, g: Leg, s: int, q: nat, c: nat, paid: real, fee: real)
    requires t.Valid() && q > 0 && (s == 1 || s == -1) && c == CloseQuantity(g.quantity, s, q) > 0
    requires fee == ClosedFee(t, g, s, q, paid)
    ensures FeeSplits(fee, paid, c, q, g.entryFees, AbsInt(g.quantity))
  {
    var share := EntryFeeShare(t, g, c);
    RemainingFees(t, g, c);
    SharePart(g.entryFees, share, AbsInt(g.quantity), c);
    assert fee - paid * c as real / q as real == share;
  }

  lemma PnlIs(t: Terms, g: Leg, s: int, c: nat, price: real)
    requires t.scale > 0 && (s == 1 || s == -1) && g.averagePrice > 0.0
    ensures ClosePnl(t, g, s, c, price)
         == Dollars(s, UnitAt(t, g.averagePrice) - SettledAt(t, g.averagePrice, price), c, t.scale)
  {
    ClosingMoney(t, g, s, c, price);
    CloseRealizes(t, g, s, c, price);
  }

  lemma SharePart(fees: real, share: real, h: nat, c: nat)
    requires c <= h && (fees - share) * h as real == fees * (h - c) as real
    ensures share * h as real == fees * c as real
  {
    assert (h - c) as real == h as real - c as real;
  }
}

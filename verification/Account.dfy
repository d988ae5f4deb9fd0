// The whole account as a value, and what every run of events keeps (src/accounting/portfolio.cpp).
module Account {
  import opened Exchange
  import opened InstrumentSpec
  import opened Leg
  import opened Sums

  datatype Position = Position(
    quantity: int,
    averagePrice: real,
    entryTs: nat,
    entryFees: real,
    tradedQuantity: nat)

  datatype ClosedTrade = ClosedTrade(
    symbol: string,
    side: Side,
    entryPrice: real,
    exitPrice: real,
    quantity: real,
    pnl: real,
    fee: real,
    entryTs: nat,
    exitTs: nat)

  datatype Account = Account(
    positions: map<string, Position>,
    closedTrades: seq<ClosedTrade>,
    cash: real,
    realizedPnl: real,
    unrealizedPnl: real,
    equity: real,
    feesPaid: real,
    makerFees: real,
    takerFees: real,
    makerTrades: nat,
    takerTrades: nat)

  datatype Settings = Settings(terms: Terms, initialCash: real, recordTrades: bool)

  const FLAT := Position(0, 0.0, 0, 0.0, 0)

  function Init(st: Settings): Account {
    Account(map[], [], st.initialCash, 0.0, 0.0, st.initialCash, 0.0, 0.0, 0.0, 0, 0)
  }

  function PositionOf(a: Account, symbol: string): Position {
    if symbol in a.positions then a.positions[symbol] else FLAT
  }

  function AsLeg(p: Position, cash: real, realized: real): Leg {
    Leg(cash, realized, p.quantity, p.averagePrice, p.entryTs, p.entryFees)
  }

  function LegOf(a: Account, symbol: string): Leg {
    AsLeg(PositionOf(a, symbol), a.cash, a.realizedPnl)
  }

  // ----------------------------------------------------------------------------------- the events

  predicate Executes(r: ExecutionReport) {
    r.execType.Trade? && r.quantity > 0
  }

  function FilledLeg(st: Settings, a: Account, r: ExecutionReport): Leg
    requires Executes(r)
  {
    FillLeg(st.terms, LegOf(a, r.symbol), r.side.Sign(), r.quantity, r.price, r.ts, r.fee)
  }

  function TradeOf(st: Settings, a: Account, r: ExecutionReport, c: nat): ClosedTrade
    requires Executes(r)
  {
    var g := LegOf(a, r.symbol);
    var s := r.side.Sign();
    ClosedTrade(r.symbol, r.side.Opposite(), g.averagePrice, r.price, Units(st.terms, c),
                ClosePnl(st.terms, g, s, c, r.price),
                ClosedFee(st.terms, g, s, r.quantity, r.fee), g.entryTs, r.ts)
  }

  function ApplyReport(st: Settings, a: Account, r: ExecutionReport): Account {
    if !Executes(r) then a
    else
      var g := FilledLeg(st, a, r);
      var c := CloseQuantity(PositionOf(a, r.symbol).quantity, r.side.Sign(), r.quantity);
      a.(positions := a.positions[r.symbol :=
           Position(g.quantity, g.averagePrice, g.entryTs, g.entryFees,
                    PositionOf(a, r.symbol).tradedQuantity + r.quantity)],
         closedTrades := if st.recordTrades && c > 0 then a.closedTrades + [TradeOf(st, a, r, c)] else a.closedTrades,
         cash := g.cash,
         realizedPnl := g.realized,
         feesPaid := a.feesPaid + r.fee,
         makerFees := a.makerFees + (if r.role.Maker? then r.fee else 0.0),
         takerFees := a.takerFees + (if r.role.Taker? then r.fee else 0.0),
         makerTrades := a.makerTrades + (if r.role.Maker? then 1 else 0),
         takerTrades := a.takerTrades + (if r.role.Taker? then 1 else 0))
  }

  function Charged(a: Account, fee: real): Account {
    a.(feesPaid := a.feesPaid + fee, cash := a.cash - fee, realizedPnl := a.realizedPnl - fee)
  }

  // One interval of a cash flow on one position; zero where there is no notional to charge a rate to.
  function PositionFlow(st: Settings, p: Position, rate: real, mark: real): real {
    if p.quantity == 0 || (st.terms.contract.unitNotionalUsd <= 0.0 && mark <= 0.0) then 0.0
    else
      var notional := Units(st.terms, AbsInt(p.quantity)) * UnitValue(st.terms, mark);
      if p.quantity > 0 then notional * rate else -notional * rate
  }

  function IntervalFlow(st: Settings, a: Account, symbol: string, rate: real, mark: real): real {
    PositionFlow(st, PositionOf(a, symbol), rate, mark)
  }

  function Accrue(a: Account, flow: real): Account {
    a.(cash := a.cash + flow, realizedPnl := a.realizedPnl + flow, equity := a.equity + flow)
  }

  // A position that either table does not name accrues nothing.
  function NamedFlow(st: Settings, p: Position, symbol: string, rates: map<string, real>, marks: map<string, real>): real {
    if symbol in rates && symbol in marks then PositionFlow(st, p, rates[symbol], marks[symbol]) else 0.0
  }

  function FlowMap(st: Settings, held: map<string, Position>, rates: map<string, real>, marks: map<string, real>)
    : map<string, real>
  {
    map s | s in held :: NamedFlow(st, held[s], s, rates, marks)
  }

  // The signed value, the signed cost and the signed gain of a position at a set of prices; zero when
  // the prices do not name it.
  function ValueOf(st: Settings, p: Position, symbol: string, prices: map<string, real>): real {
    if symbol in prices then MarkedValue(st.terms, AsLeg(p, 0.0, 0.0), prices[symbol]) else 0.0
  }

  function CostOf(st: Settings, p: Position): real {
    EntryValue(st.terms, AsLeg(p, 0.0, 0.0))
  }

  function GainOf(st: Settings, p: Position, symbol: string, prices: map<string, real>): real {
    if symbol in prices then ValueOf(st, p, symbol, prices) - CostOf(st, p) else 0.0
  }

  function ValueMap(st: Settings, a: Account, prices: map<string, real>): map<string, real> {
    map s | s in a.positions :: ValueOf(st, a.positions[s], s, prices)
  }

  function GainMap(st: Settings, a: Account, prices: map<string, real>): map<string, real> {
    map s | s in a.positions :: GainOf(st, a.positions[s], s, prices)
  }

  ghost function EquityAt(st: Settings, a: Account, prices: map<string, real>): real {
    a.cash + Sum(ValueMap(st, a, prices))
  }

  ghost function Marked(st: Settings, a: Account, prices: map<string, real>): Account {
    a.(unrealizedPnl := Sum(GainMap(st, a, prices)), equity := EquityAt(st, a, prices))
  }

  datatype Event =
    | Fill(report: ExecutionReport)
    | Fee(fee: real)
    | Funding(symbol: string, rate: real, mark: real)
    | FundingAll(rates: map<string, real>, marks: map<string, real>)
    | Mark(prices: map<string, real>)

  ghost function FlowOf(st: Settings, a: Account, e: Event): real {
    match e
    case Funding(symbol, rate, mark) => IntervalFlow(st, a, symbol, rate, mark)
    case FundingAll(rates, marks) => Sum(FlowMap(st, a.positions, rates, marks))
    case _ => 0.0
  }

  ghost function Step(st: Settings, a: Account, e: Event): Account {
    match e
    case Fill(r) => ApplyReport(st, a, r)
    case Fee(fee) => Charged(a, fee)
    case Mark(prices) => Marked(st, a, prices)
    case _ => Accrue(a, FlowOf(st, a, e))
  }

  ghost function Run(st: Settings, events: seq<Event>): Account {
    if events == [] then Init(st)
    else Step(st, Run(st, events[..|events| - 1]), events[|events| - 1])
  }

  // The fees that belong to no execution, and the flows credited, over a run.
  ghost function StandAloneFees(events: seq<Event>): real {
    if events == [] then 0.0
    else
      var e := events[|events| - 1];
      StandAloneFees(events[..|events| - 1]) + (if e.Fee? then e.fee else 0.0)
  }

  ghost function Flows(st: Settings, events: seq<Event>): real {
    if events == [] then 0.0
    else
      var before := events[..|events| - 1];
      Flows(st, before) + FlowOf(st, Run(st, before), events[|events| - 1])
  }

  // ------------------------------------------------------------------------------- conservation of cash

  function EntryMap(st: Settings, a: Account): map<string, real> {
    map s | s in a.positions :: CostOf(st, a.positions[s])
  }

  // Cash is the initial cash plus the realized result less the signed cost of what is held.
  ghost predicate CashLaw(st: Settings, a: Account) {
    a.cash == st.initialCash + a.realizedPnl - Sum(EntryMap(st, a))
  }

  lemma LegIgnoresMoney(t: Terms, g: Leg, c: real, r: real, price: real)
    ensures EntryValue(t, g.(cash := c, realized := r)) == EntryValue(t, g)
    ensures MarkedValue(t, g.(cash := c, realized := r), price) == MarkedValue(t, g, price)
  {
  }

  lemma FillKeepsCash(st: Settings, a: Account, r: ExecutionReport)
    requires st.terms.Valid() && CashLaw(st, a)
    ensures CashLaw(st, ApplyReport(st, a, r))
  {
    if Executes(r) {
      var b := ApplyReport(st, a, r);
      var g, after := LegOf(a, r.symbol), FilledLeg(st, a, r);
      var cost := CostOf(st, b.positions[r.symbol]);
      assert EntryMap(st, b) == EntryMap(st, a)[r.symbol := cost];
      SumUpdate(EntryMap(st, a), r.symbol, cost);
      LegIgnoresMoney(st.terms, g, 0.0, 0.0, 0.0);
      LegIgnoresMoney(st.terms, after, 0.0, 0.0, 0.0);
      assert Entry(EntryMap(st, a), r.symbol) == EntryValue(st.terms, g);
      FillKeepsInvested(st.terms, LegOf(a, r.symbol), r.side.Sign(), r.quantity, r.price, r.ts, r.fee);
    }
  }

  // Over any run of fills, fees, funding and marks the cash law holds, whatever the prices are.
  lemma {:induction false} CashConserved(st: Settings, events: seq<Event>)
    requires st.terms.Valid()
    ensures CashLaw(st, Run(st, events))
  {
    if events == [] {
      assert EntryMap(st, Init(st)) == map[];
    } else {
      var before := events[..|events| - 1];
      CashConserved(st, before);
      var a, e := Run(st, before), events[|events| - 1];
      if e.Fill? {
        FillKeepsCash(st, a, e.report);
      } else {
        assert EntryMap(st, Step(st, a, e)) == EntryMap(st, a);
      }
    }
  }

  // --------------------------------------------------------------------------------- equity identity

  // The signed cost of the positions a set of prices does not name.
  function UnmarkedMap(st: Settings, a: Account, prices: map<string, real>): map<string, real> {
    map s | s in a.positions ::
      if s in prices then 0.0 else CostOf(st, a.positions[s])
  }

  ghost predicate EquityIdentity(st: Settings, a: Account) {
    a.equity == st.initialCash + a.realizedPnl + a.unrealizedPnl
  }

  // Marking: equity is initial cash plus realized plus unrealized, less the cost of what was left
  // unmarked; so the identity holds exactly when that cost is zero, as it is when every held symbol
  // has a price.
  lemma MarkedIdentity(st: Settings, a: Account, prices: map<string, real>)
    requires CashLaw(st, a)
    ensures
      var b := Marked(st, a, prices);
      && b.equity == st.initialCash + b.realizedPnl + b.unrealizedPnl - Sum(UnmarkedMap(st, a, prices))
      && (EquityIdentity(st, b) <==> Sum(UnmarkedMap(st, a, prices)) == 0.0)
      && ((forall s :: s in a.positions && a.positions[s].quantity != 0 ==> s in prices) ==> EquityIdentity(st, b))
  {
    MarkedParts(st, a, prices);
    if forall s :: s in a.positions && a.positions[s].quantity != 0 ==> s in prices {
      SumZero(UnmarkedMap(st, a, prices));
    }
  }

  function MarkedCostMap(st: Settings, a: Account, prices: map<string, real>): map<string, real> {
    map s | s in a.positions :: if s in prices then CostOf(st, a.positions[s]) else 0.0
  }

  lemma MarkedParts(st: Settings, a: Account, prices: map<string, real>)
    ensures Sum(ValueMap(st, a, prices)) == Sum(GainMap(st, a, prices)) + Sum(MarkedCostMap(st, a, prices))
    ensures Sum(EntryMap(st, a)) == Sum(MarkedCostMap(st, a, prices)) + Sum(UnmarkedMap(st, a, prices))
  {
    SumPlus(GainMap(st, a, prices), MarkedCostMap(st, a, prices), ValueMap(st, a, prices));
    SumPlus(MarkedCostMap(st, a, prices), UnmarkedMap(st, a, prices), EntryMap(st, a));
  }

  // Over any run, a mark that names every held symbol restores the identity, and a funding accrual
  // keeps it until the next mark; a stand-alone fee keeps it only when it is zero.
  lemma EquityBetweenMarks(st: Settings, events: seq<Event>, prices: map<string, real>, e: Event)
    requires st.terms.Valid()
    requires forall s :: s in Run(st, events).positions && Run(st, events).positions[s].quantity != 0 ==> s in prices
    ensures EquityIdentity(st, Run(st, events + [Mark(prices)]))
    ensures e.Funding? || e.FundingAll? ==> EquityIdentity(st, Run(st, events + [Mark(prices)] + [e]))
    ensures e.Fee? ==> (EquityIdentity(st, Run(st, events + [Mark(prices)] + [e])) <==> e.fee == 0.0)
  {
    CashConserved(st, events);
    MarkedIdentity(st, Run(st, events), prices);
    var marked := events + [Mark(prices)];
    assert marked[..|marked| - 1] == events;
    assert (marked + [e])[..|marked + [e]| - 1] == marked;
  }

  // ------------------------------------------------------------------------------- a fill and equity

  ghost predicate Priced(a: Account) {
    forall s :: s in a.positions ==> PricedLeg(LegOf(a, s))
  }

  lemma FillKeepsPriced(st: Settings, a: Account, r: ExecutionReport)
    requires st.terms.Valid() && Priced(a) && r.price > 0.0
    ensures Priced(ApplyReport(st, a, r))
  {
    if Executes(r) {
      FillEquity(st.terms, LegOf(a, r.symbol), r.side.Sign(), r.quantity, r.price, r.ts, r.fee);
      var b := ApplyReport(st, a, r);
      forall s | s in b.positions ensures PricedLeg(LegOf(b, s)) {
        assert s != r.symbol ==> PricedLeg(LegOf(a, s));
      }
    }
  }

  lemma {:induction false} RunIsPriced(st: Settings, events: seq<Event>)
    requires st.terms.Valid()
    requires forall i :: 0 <= i < |events| && events[i].Fill? ==> events[i].report.price > 0.0
    ensures Priced(Run(st, events))
  {
    if events != [] {
      var before := events[..|events| - 1];
      RunIsPriced(st, before);
      var a, e := Run(st, before), events[|events| - 1];
      if e.Fill? {
        FillKeepsPriced(st, a, e.report);
      } else {
        var b := Step(st, a, e);
        forall s | s in b.positions ensures PricedLeg(LegOf(b, s)) {
          assert PricedLeg(LegOf(a, s));
        }
      }
    }
  }

  // Marked at its own price, any fill in any run moves the account's equity by exactly its fee on a
  // price-quoted instrument; on a fixed face instrument an addition also moves it by the averaging term.
  lemma FillMovesEquity(st: Settings, a: Account, r: ExecutionReport, prices: map<string, real>)
    requires st.terms.Valid() && Priced(a) && Executes(r)
    requires r.symbol in prices && prices[r.symbol] == r.price > 0.0
    ensures
      EquityAt(st, ApplyReport(st, a, r), prices)
      == EquityAt(st, a, prices) - r.fee
         - Deviation(st.terms, LegOf(a, r.symbol), r.side.Sign(), r.quantity, r.price)
    ensures !st.terms.contract.FixedFace() ==>
              EquityAt(st, ApplyReport(st, a, r), prices) == EquityAt(st, a, prices) - r.fee
  {
    var g := LegOf(a, r.symbol);
    var b := ApplyReport(st, a, r);
    FillEquity(st.terms, g, r.side.Sign(), r.quantity, r.price, r.ts, r.fee);
    var before, after := ValueMap(st, a, prices), ValueMap(st, b, prices);
    var value := ValueOf(st, b.positions[r.symbol], r.symbol, prices);
    assert after == before[r.symbol := value];
    SumUpdate(before, r.symbol, value);
    LegIgnoresMoney(st.terms, g, 0.0, 0.0, r.price);
    LegIgnoresMoney(st.terms, FilledLeg(st, a, r), 0.0, 0.0, r.price);
    assert Entry(before, r.symbol) == MarkedValue(st.terms, g, r.price);
  }

  // ------------------------------------------------------------------------------- split invariance

  // What a split must not change.
  ghost predicate SameBooks(a: Account, b: Account, symbol: string) {
    && a.positions == b.positions && symbol in a.positions
    && a.cash == b.cash && a.realizedPnl == b.realizedPnl && a.feesPaid == b.feesPaid
    && a.makerFees == b.makerFees && a.takerFees == b.takerFees
    && a.unrealizedPnl == b.unrealizedPnl && a.equity == b.equity
  }

  lemma SplitInvariant(st: Settings, a: Account, r: ExecutionReport, q1: nat, q2: nat)
    requires st.terms.Valid() && r.execType.Trade? && q1 > 0 && q2 > 0 && r.quantity == q1 + q2
    ensures
      var first := r.(quantity := q1, fee := Portion(r.fee, q1, r.quantity));
      var second := r.(quantity := q2, fee := Portion(r.fee, q2, r.quantity));
      SameBooks(ApplyReport(st, ApplyReport(st, a, first), second), ApplyReport(st, a, r), r.symbol)
  {
    var first := r.(quantity := q1, fee := Portion(r.fee, q1, r.quantity));
    SplitFill(st.terms, LegOf(a, r.symbol), r.side.Sign(), q1, q2, r.price, r.ts, r.fee);
    PortionAdds(r.fee, q1, q2, r.quantity);
    PortionWhole(r.fee, r.quantity);
    assert LegOf(ApplyReport(st, a, first), r.symbol) == FilledLeg(st, a, first);
  }

  // --------------------------------------------------------------------------------- where fees went

  function CarriedMap(a: Account): map<string, real> {
    map s | s in a.positions :: a.positions[s].entryFees
  }

  function TradeFees(trades: seq<ClosedTrade>): real {
    if trades == [] then 0.0 else TradeFees(trades[..|trades| - 1]) + trades[|trades| - 1].fee
  }

  function TradeNet(trades: seq<ClosedTrade>): real {
    if trades == [] then 0.0
    else TradeNet(trades[..|trades| - 1]) + (trades[|trades| - 1].pnl - trades[|trades| - 1].fee)
  }

  ghost predicate FeesLaw(a: Account, standAlone: real, flows: real) {
    && (forall s :: s in a.positions ==> CarriesOnlyIfHeld(LegOf(a, s)))
    && a.feesPaid == TradeFees(a.closedTrades) + Sum(CarriedMap(a)) + standAlone
    && a.realizedPnl == TradeNet(a.closedTrades) - Sum(CarriedMap(a)) - standAlone + flows
  }

  lemma FillCarried(st: Settings, a: Account, r: ExecutionReport)
    requires st.terms.Valid() && Executes(r)
    requires forall s :: s in a.positions ==> CarriesOnlyIfHeld(LegOf(a, s))
    ensures
      var b := ApplyReport(st, a, r);
      && (forall s :: s in b.positions ==> CarriesOnlyIfHeld(LegOf(b, s)))
      && Sum(CarriedMap(b)) + ClosedFee(st.terms, LegOf(a, r.symbol), r.side.Sign(), r.quantity, r.fee)
         == Sum(CarriedMap(a)) + r.fee
  {
    var g := LegOf(a, r.symbol);
    var b := ApplyReport(st, a, r);
    FillKeepsFees(st.terms, g, r.side.Sign(), r.quantity, r.price, r.ts, r.fee);
    CarriedAfter(st, a, r);
    SumUpdate(CarriedMap(a), r.symbol, FilledLeg(st, a, r).entryFees);
    forall k | k in b.positions ensures CarriesOnlyIfHeld(LegOf(b, k)) {
      assert k != r.symbol && k in a.positions ==> CarriesOnlyIfHeld(LegOf(a, k));
    }
  }

  lemma CarriedAfter(st: Settings, a: Account, r: ExecutionReport)
    requires Executes(r)
    ensures CarriedMap(ApplyReport(st, a, r)) == CarriedMap(a)[r.symbol := FilledLeg(st, a, r).entryFees]
    ensures Entry(CarriedMap(a), r.symbol) == LegOf(a, r.symbol).entryFees
  {
  }

  lemma FillTrades(st: Settings, a: Account, r: ExecutionReport)
    requires st.recordTrades && Executes(r)
    ensures
      var b := ApplyReport(st, a, r);
      var fee := ClosedFee(st.terms, LegOf(a, r.symbol), r.side.Sign(), r.quantity, r.fee);
      && TradeFees(b.closedTrades) == TradeFees(a.closedTrades) + fee
      && TradeNet(b.closedTrades) - TradeNet(a.closedTrades) == b.realizedPnl + r.fee - a.realizedPnl - fee
  {
    var b := ApplyReport(st, a, r);
    var c := CloseQuantity(PositionOf(a, r.symbol).quantity, r.side.Sign(), r.quantity);
    FillRealized(st.terms, LegOf(a, r.symbol), r.side.Sign(), r.quantity, r.price, r.ts, r.fee);
    if c > 0 {
      assert b.closedTrades[..|b.closedTrades| - 1] == a.closedTrades;
      assert b.closedTrades[|b.closedTrades| - 1] == TradeOf(st, a, r, c);
    }
  }

  lemma FillKeepsFeesLaw(st: Settings, a: Account, r: ExecutionReport, standAlone: real, flows: real)
    requires st.terms.Valid() && st.recordTrades && FeesLaw(a, standAlone, flows)
    ensures FeesLaw(ApplyReport(st, a, r), standAlone, flows)
  {
    if Executes(r) {
      FillCarried(st, a, r);
      FillTrades(st, a, r);
    }
  }

  // With trade recording on, over any run: the fees paid are those of the closed trades, those still
  // carried and the stand-alone ones; the realized result is the closed trades' net result less the
  // carried and stand-alone fees plus the flows; and a flat position carries nothing.
  lemma {:induction false} FeesConserved(st: Settings, events: seq<Event>)
    requires st.terms.Valid() && st.recordTrades
    ensures FeesLaw(Run(st, events), StandAloneFees(events), Flows(st, events))
  {
    if events == [] {
      assert CarriedMap(Init(st)) == map[];
    } else {
      var before := events[..|events| - 1];
      FeesConserved(st, before);
      var a, e := Run(st, before), events[|events| - 1];
      if e.Fill? {
        FillKeepsFeesLaw(st, a, e.report, StandAloneFees(before), Flows(st, before));
      } else {
        OtherKeepsFeesLaw(st, a, e, StandAloneFees(before), Flows(st, before));
      }
    }
  }

  lemma OtherKeepsFeesLaw(st: Settings, a: Account, e: Event, standAlone: real, flows: real)
    requires !e.Fill? && FeesLaw(a, standAlone, flows)
    ensures FeesLaw(Step(st, a, e), standAlone + (if e.Fee? then e.fee else 0.0), flows + FlowOf(st, a, e))
  {
    var b := Step(st, a, e);
    assert CarriedMap(b) == CarriedMap(a);
    forall s | s in b.positions ensures CarriesOnlyIfHeld(LegOf(b, s)) {
      assert CarriesOnlyIfHeld(LegOf(a, s));
    }
  }
}

// The account object (src/accounting/portfolio.cpp, portfolio.h): its fields updated in place by fills,
// fees, flows and marks. Every method is tied to the corresponding step of Account, whose laws
// therefore hold of any sequence of calls.
module Portfolio {
  import opened Exchange
  import opened InstrumentSpec
  import opened Leg
  import opened Account
  import opened Sums

  class Portfolio {
    const settings: Settings
    var positions: map<string, Position>
    var closedTrades: seq<ClosedTrade>
    var cash: real
    var realizedPnl: real
    var unrealizedPnl: real
    var equity: real
    var feesPaid: real
    var makerFees: real
    var takerFees: real
    var makerTrades: nat
    var takerTrades: nat

    // The account these fields hold.
    ghost function Book(): Account
      reads this
    {
      Account(positions, closedTrades, cash, realizedPnl, unrealizedPnl, equity, feesPaid,
              makerFees, takerFees, makerTrades, takerTrades)
    }

    // A scale of zero is read as one.
    constructor (scale: nat, initialCash: real, contract: Contract, recordTrades: bool)
      ensures settings == Settings(Terms(contract, if scale == 0 then 1 else scale), initialCash, recordTrades)
      ensures settings.terms.Valid() && Book() == Init(settings)
    {
      settings := Settings(Terms(contract, if scale == 0 then 1 else scale), initialCash, recordTrades);
      positions, closedTrades := map[], [];
      cash, realizedPnl, unrealizedPnl, equity := initialCash, 0.0, 0.0, initialCash;
      feesPaid, makerFees, takerFees, makerTrades, takerTrades := 0.0, 0.0, 0.0, 0, 0;
    }

    method Reset()
      modifies this
      ensures Book() == Init(settings)
    {
      positions, closedTrades := map[], [];
      cash, realizedPnl, unrealizedPnl, equity := settings.initialCash, 0.0, 0.0, settings.initialCash;
      feesPaid, makerFees, takerFees, makerTrades, takerTrades := 0.0, 0.0, 0.0, 0, 0;
    }

    method ChargeFee(fee: real)
      modifies this
      ensures Book() == Charged(old(Book()), fee)
    {
      if fee == 0.0 {
        return;
      }
      feesPaid := feesPaid + fee;
      cash := cash - fee;
      realizedPnl := realizedPnl - fee;
    }

    // The closed trade of settling `c` units of a position.
    ghost function TradeFor(report: ExecutionReport, position: Position, c: nat): ClosedTrade
      requires Executes(report)
    {
      var g := AsLeg(position, 0.0, 0.0);
      ClosedTrade(report.symbol, report.side.Opposite(), position.averagePrice, report.price,
                  Units(settings.terms, c), ClosePnl(settings.terms, g, report.side.Sign(), c, report.price),
                  Portion(report.fee, c, report.quantity) + EntryFeeShare(settings.terms, g, c),
                  position.entryTs, report.ts)
    }

    // Settles the part of a fill that closes: cash, realized result, the share of the carried fees and,
    // when recording is on, the closed trade.
    method SettleClose(report: ExecutionReport, position: Position, c: nat) returns (settled: Position)
      requires settings.terms.Valid() && Executes(report)
      requires 0 < c <= AbsInt(position.quantity) && c <= report.quantity
      modifies this`cash, this`realizedPnl, this`closedTrades
      ensures
        var g := AsLeg(position, old(cash), old(realizedPnl));
        var closed := CloseLeg(settings.terms, g, report.side.Sign(), c, report.price);
        && cash == closed.cash && realizedPnl == closed.realized
        && settled == position.(entryFees := closed.entryFees)
      ensures closedTrades == old(closedTrades) +
                if settings.recordTrades then [TradeFor(report, position, c)] else []
    {
      var t := settings.terms;
      ghost var g := AsLeg(position, 0.0, 0.0);
      var closed := Units(t, c);
      var valueNow := PositionValue(t.contract, closed, position.averagePrice, report.price);
      var valueAtEntry := UnitValue(t, position.averagePrice) * closed;
      assert valueNow == ValueNow(t, g, c, report.price) && valueAtEntry == ValueAtEntry(t, g, c);
      SignTimes(report.side, valueNow);
      SignTimes(report.side, valueAtEntry - valueNow);
      var pnl: real;
      if report.side.Buy? {
        cash := cash - valueNow;
        pnl := valueAtEntry - valueNow;
      } else {
        cash := cash + valueNow;
        pnl := valueNow - valueAtEntry;
      }
      realizedPnl := realizedPnl + pnl;
      assert pnl == ClosePnl(t, g, report.side.Sign(), c, report.price);
      var closingFee := report.fee * (c as real) / (report.quantity as real);
      var held := Units(t, AbsInt(position.quantity));
      var share := if held > 0.0 then position.entryFees * (closed / held) else 0.0;
      assert share == EntryFeeShare(t, g, c) && closingFee == Portion(report.fee, c, report.quantity);
      settled := position.(entryFees := position.entryFees - share);
      if !settings.recordTrades {
        return;
      }
      closedTrades := closedTrades + [
        ClosedTrade(report.symbol, report.side.Opposite(), position.averagePrice, report.price, closed, pnl,
                    closingFee + share, position.entryTs, report.ts)];
    }

    static lemma SignTimes(side: Side, x: real)
      ensures side.Sign() as real * x == if side.Buy? then x else -x
    {
    }

    // Opens `o` units at the report's price in the report's direction.
    method OpenRemaining(report: ExecutionReport, position: Position, o: nat) returns (grown: Position)
      requires settings.terms.Valid() && Executes(report) && o > 0
      requires position.quantity * report.side.Sign() >= 0
      modifies this`cash
      ensures
        var g := AsLeg(position, old(cash), realizedPnl);
        var after := OpenLeg(settings.terms, g, report.side.Sign(), o, report.price, report.ts,
                             Portion(report.fee, o, report.quantity));
        && cash == after.cash
        && grown == Position(after.quantity, after.averagePrice, after.entryTs, after.entryFees,
                              position.tradedQuantity)
    {
      var t := settings.terms;
      var open := Units(t, o);
      var existing := Units(t, if report.side.Buy? then MaxInt(0, position.quantity) else MaxInt(0, -position.quantity));
      assert existing == Held(t, AsLeg(position, cash, realizedPnl));
      var fee := report.fee * (o as real) / (report.quantity as real);
      assert fee == Portion(report.fee, o, report.quantity);
      grown := position;
      if grown.quantity == 0 {
        grown := grown.(entryTs := report.ts, entryFees := 0.0);
      }
      grown := grown.(entryFees := grown.entryFees + fee,
                      averagePrice := Blended(existing, grown.averagePrice, open, report.price));
      var cost := UnitValue(t, report.price) * open;
      assert cost == OpenCost(t, o, report.price);
      SignTimes(report.side, cost);
      if report.side.Buy? {
        grown := grown.(quantity := grown.quantity + o);
        cash := cash - cost;
      } else {
        grown := grown.(quantity := grown.quantity - o);
        cash := cash + cost;
      }
    }

    static function Blended(existing: real, average: real, open: real, price: real): (a: real)
      ensures a == Average(existing, average, open, price)
    {
      var total := existing + open;
      if total > 0.0 then (existing * average + open * price) / total else 0.0
    }

    // Closes what the report closes of the position, and says what is left to open.
    method SettleOpposite(report: ExecutionReport, held: Position) returns (position: Position, remaining: nat)
      requires settings.terms.Valid() && Executes(report)
      modifies this`cash, this`realizedPnl, this`closedTrades
      ensures
        var s, g := report.side.Sign(), AsLeg(held, old(cash), old(realizedPnl));
        var c := CloseQuantity(held.quantity, s, report.quantity);
        && remaining == report.quantity - c
        && AsLeg(position, cash, realizedPnl) == (if c > 0 then CloseLeg(settings.terms, g, s, c, report.price) else g)
        && (remaining > 0 ==> position.quantity * s >= 0)
        && closedTrades == old(closedTrades) +
             if settings.recordTrades && c > 0 then [TradeFor(report, held, c)] else []
      ensures position.tradedQuantity == held.tradedQuantity
    {
      position := held;
      remaining := report.quantity;
      if report.side.Buy? {
        if position.quantity < 0 {
          var c := MinInt(-position.quantity, remaining);
          position := SettleClose(report, position, c);
          position := position.(quantity := position.quantity + c);
          remaining := remaining - c;
        }
      } else {
        if position.quantity > 0 {
          var c := MinInt(position.quantity, remaining);
          position := SettleClose(report, position, c);
          position := position.(quantity := position.quantity - c);
          remaining := remaining - c;
        }
      }
    }

    // Charges the fill's fee, closes what the report closes and opens the rest.
    method SettleAndOpen(report: ExecutionReport, held: Position) returns (position: Position)
      requires settings.terms.Valid() && Executes(report)
      modifies this`cash, this`realizedPnl, this`closedTrades
      ensures AsLeg(position, cash, realizedPnl)
           == FillLeg(settings.terms, AsLeg(held, old(cash), old(realizedPnl)), report.side.Sign(), report.quantity,
                      report.price, report.ts, report.fee)
      ensures position.tradedQuantity == held.tradedQuantity
      ensures
        var c := CloseQuantity(held.quantity, report.side.Sign(), report.quantity);
        closedTrades == old(closedTrades) +
          if settings.recordTrades && c > 0 then [TradeFor(report, held, c)] else []
    {
      cash := cash - report.fee;
      realizedPnl := realizedPnl - report.fee;
      var remaining;
      position, remaining := SettleOpposite(report, held);
      if remaining > 0 {
        position := OpenRemaining(report, position, remaining);
      }
    }

    // The fee totals and the count of the venue's role.
    method CountFill(report: ExecutionReport)
      modifies this`feesPaid, this`makerFees, this`takerFees, this`makerTrades, this`takerTrades
      ensures feesPaid == old(feesPaid) + report.fee
      ensures makerFees == old(makerFees) + (if report.role.Maker? then report.fee else 0.0)
      ensures takerFees == old(takerFees) + (if report.role.Taker? then report.fee else 0.0)
      ensures makerTrades == old(makerTrades) + (if report.role.Maker? then 1 else 0)
      ensures takerTrades == old(takerTrades) + (if report.role.Taker? then 1 else 0)
    {
      feesPaid := feesPaid + report.fee;
      if report.role.Maker? {
        makerFees := makerFees + report.fee;
        makerTrades := makerTrades + 1;
      } else if report.role.Taker? {
        takerFees := takerFees + report.fee;
        takerTrades := takerTrades + 1;
      }
    }

    method Apply(report: ExecutionReport)
      requires settings.terms.Valid()
      modifies this
      ensures Book() == ApplyReport(settings, old(Book()), report)
    {
      if !report.execType.Trade? || report.quantity == 0 {
        return;
      }
      ghost var before := Book();
      ghost var c := CloseQuantity(PositionOf(before, report.symbol).quantity, report.side.Sign(), report.quantity);
      var position := if report.symbol in positions then positions[report.symbol] else FLAT;
      position := position.(tradedQuantity := position.tradedQuantity + report.quantity);
      TradeIgnoresMoney(report, position, c);
      CountFill(report);
      position := SettleAndOpen(report, position);
      ghost var g := FilledLeg(settings, before, report);
      assert AsLeg(position, cash, realizedPnl) == g;
      assert position == Position(g.quantity, g.averagePrice, g.entryTs, g.entryFees, position.tradedQuantity);
      positions := positions[report.symbol := position];
      assert positions == ApplyReport(settings, before, report).positions;
      assert closedTrades == ApplyReport(settings, before, report).closedTrades;
    }

    lemma TradeIgnoresMoney(report: ExecutionReport, position: Position, c: nat)
      requires Executes(report)
      requires position == PositionOf(Book(), report.symbol).(tradedQuantity := position.tradedQuantity)
      requires c == CloseQuantity(position.quantity, report.side.Sign(), report.quantity)
      ensures c > 0 ==> TradeFor(report, position, c) == TradeOf(settings, Book(), report, c)
    {
    }

    // The value and the gain of one position, signed; zero for a flat or an unpriced one.
    method MarkOne(prices: map<string, real>, symbol: string) returns (gain: real, value: real)
      requires symbol in positions
      ensures gain == GainOf(settings, positions[symbol], symbol, prices)
      ensures value == ValueOf(settings, positions[symbol], symbol, prices)
    {
      var position := positions[symbol];
      if symbol !in prices || position.quantity == 0 {
        return 0.0, 0.0;
      }
      var amount := Units(settings.terms, AbsInt(position.quantity));
      var valueNow := PositionValue(settings.terms.contract, amount, position.averagePrice, prices[symbol]);
      var valueAtEntry := UnitValue(settings.terms, position.averagePrice) * amount;
      if position.quantity > 0 {
        return valueNow - valueAtEntry, valueNow;
      }
      return valueAtEntry - valueNow, -valueNow;
    }

    // One position added to the two running sums.
    method MarkNext(prices: map<string, real>, symbol: string, unrealized: real, marked: real,
                    ghost gains: map<string, real>, ghost values: map<string, real>, ghost done: set<string>)
      returns (newUnrealized: real, newMarked: real)
      requires symbol in positions && symbol !in done
      requires gains == GainMap(settings, Book(), prices) && values == ValueMap(settings, Book(), prices)
      requires unrealized == Sum(Pick(gains, done)) && marked == cash + Sum(Pick(values, done))
      ensures newUnrealized == Sum(Pick(gains, done + {symbol}))
      ensures newMarked == cash + Sum(Pick(values, done + {symbol}))
    {
      PickNext(gains, done, symbol);
      PickNext(values, done, symbol);
      var gain, value := MarkOne(prices, symbol);
      assert gain == Entry(gains, symbol) && value == Entry(values, symbol);
      newUnrealized := unrealized + gain;
      newMarked := marked + value;
    }

    // The one valuation loop, over the positions in whatever order the table yields them.
    method MarkValues(prices: map<string, real>) returns (unrealized: real, marked: real)
      requires settings.terms.Valid()
      ensures unrealized == Sum(GainMap(settings, Book(), prices))
      ensures marked == EquityAt(settings, Book(), prices)
    {
      unrealized := 0.0;
      marked := cash;
      var todo := positions.Keys;
      ghost var gains := GainMap(settings, Book(), prices);
      ghost var values := ValueMap(settings, Book(), prices);
      ghost var done: set<string> := {};
      PickBounds(gains, done);
      PickBounds(values, done);
      while todo != {}
        invariant forall s :: s in positions <==> s in todo || s in done
        invariant forall s :: s in todo ==> s !in done
        invariant unrealized == Sum(Pick(gains, done))
        invariant marked == cash + Sum(Pick(values, done))
        decreases todo
      {
        var symbol :| symbol in todo;
        unrealized, marked := MarkNext(prices, symbol, unrealized, marked, gains, values, done);
        todo := todo - {symbol};
        done := done + {symbol};
      }
      PickBounds(gains, done);
      PickBounds(values, done);
    }

    method EquityAtPrices(prices: map<string, real>) returns (marked: real)
      requires settings.terms.Valid()
      ensures marked == EquityAt(settings, Book(), prices)
    {
      var unrealized;
      unrealized, marked := MarkValues(prices);
    }

    method MarkToMarket(prices: map<string, real>)
      requires settings.terms.Valid()
      modifies this
      ensures Book() == Marked(settings, old(Book()), prices)
    {
      var unrealized, marked := MarkValues(prices);
      unrealizedPnl, equity := unrealized, marked;
    }

    method AccrueIntervalFlow(symbol: string, rate: real, mark: real) returns (flow: real)
      requires settings.terms.Valid()
      modifies this`cash, this`realizedPnl, this`equity
      ensures flow == PositionFlow(settings, if symbol in positions then positions[symbol] else FLAT, rate, mark)
      ensures cash == old(cash) + flow && realizedPnl == old(realizedPnl) + flow && equity == old(equity) + flow
      ensures Book() == Accrue(old(Book()), flow)
    {
      if symbol !in positions || positions[symbol].quantity == 0 {
        return 0.0;
      }
      if settings.terms.contract.unitNotionalUsd <= 0.0 && mark <= 0.0 {
        return 0.0;
      }
      var held := positions[symbol].quantity;
      var notional := Units(settings.terms, AbsInt(held)) * UnitValue(settings.terms, mark);
      flow := if held > 0 then notional * rate else -notional * rate;
      if flow == 0.0 {
        return;
      }
      cash := cash + flow;
      realizedPnl := realizedPnl + flow;
      equity := equity + flow;
    }

    // The interval of one position, added to what the loop has accrued: zero for a flat one or one that
    // either table does not name.
    method AccrueNamed(symbol: string, rates: map<string, real>, marks: map<string, real>, before: real,
                       ghost flows: map<string, real>, ghost done: set<string>)
      returns (total: real)
      requires settings.terms.Valid() && symbol in positions && flows == FlowMap(settings, positions, rates, marks)
      requires symbol !in done && before == Sum(Pick(flows, done))
      modifies this`cash, this`realizedPnl, this`equity
      ensures total == Sum(Pick(flows, done + {symbol}))
      ensures cash == old(cash) + (total - before) && realizedPnl == old(realizedPnl) + (total - before)
      ensures equity == old(equity) + (total - before)
    {
      PickNext(flows, done, symbol);
      var flow := 0.0;
      if positions[symbol].quantity != 0 && symbol in rates && symbol in marks {
        flow := AccrueIntervalFlow(symbol, rates[symbol], marks[symbol]);
      }
      assert flow == Entry(flows, symbol);
      total := before + flow;
    }

    // The whole book: cash, realized result and equity move by the summed flow, and by the frame
    // nothing else does, so the new book is Accrue of the old one.
    method AccrueIntervalFlows(rates: map<string, real>, marks: map<string, real>) returns (total: real)
      requires settings.terms.Valid()
      modifies this`cash, this`realizedPnl, this`equity
      ensures total == Sum(FlowMap(settings, positions, rates, marks))
      ensures cash == old(cash) + total && realizedPnl == old(realizedPnl) + total && equity == old(equity) + total
    {
      total := 0.0;
      var todo := positions.Keys;
      ghost var flows := FlowMap(settings, positions, rates, marks);
      ghost var done: set<string> := {};
      PickBounds(flows, done);
      while todo != {}
        invariant forall s :: s in positions <==> s in todo || s in done
        invariant forall s :: s in todo ==> s !in done
        invariant total == Sum(Pick(flows, done))
        invariant cash == old(cash) + total && realizedPnl == old(realizedPnl) + total
        invariant equity == old(equity) + total
        decreases todo
      {
        var symbol :| symbol in todo;
        total := AccrueNamed(symbol, rates, marks, total, flows, done);
        todo := todo - {symbol};
        done := done + {symbol};
      }
      PickBounds(flows, done);
    }
  }
}

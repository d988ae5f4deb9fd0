// What the deferred measurements of a run add, in the program's own figures
// (src/app/run_accounting.cpp:284-308).
module RunFigures {
  import opened Exchange
  import opened InstrumentSpec
  import opened RunSummary
  import opened RunAccounting

  // A buy that missed its quantity lost what the market rose since its decision, and a sell what it fell: the
  // quantity over the scale, at the decision's value, times the move over the decision's price.
  lemma OpportunityIsTheMove(s: Shortfall, m: Market, move: real)
    requires move == if s.side == Buying then m.lastMid - s.decisionMid else s.decisionMid - m.lastMid
    ensures s.unfilled > 0 && s.decisionMid > 0.0 && m.lastMid > 0.0 ==>
              OpportunityUsd((s, m)) * s.decisionMid * m.quantityScale as real
              == s.unfilled as real * UnitNotionalAt(m.contract, s.decisionMid) * move
    ensures s.unfilled == 0 || s.decisionMid <= 0.0 || m.lastMid <= 0.0 ==> OpportunityUsd((s, m)) == 0.0
  {
    if s.unfilled > 0 && s.decisionMid > 0.0 && m.lastMid > 0.0 {
      UsdTimesScale(s.unfilled as real, m.quantityScale as real, UnitNotionalAt(m.contract, s.decisionMid), move,
                    s.decisionMid, OpportunityUsd((s, m)));
    }
  }

  // One aggressive fill moves its sums by what the market rose after a buy, or fell after a sell, in ticks
  // times the quantity.
  lemma DriftIs(sums: EdgeSums, o: Fill, m: Market)
    ensures
      var n := Moved(sums, Ticks, Quantity, [(o, m)]);
      && n.quantity == sums.quantity + o.quantity as real
      && (n.ticksQuantity - sums.ticksQuantity) * (if m.tickSize > 0.00001 then m.tickSize else 0.00001)
         == (if o.side == Buy then m.lastMid - o.price else o.price - m.lastMid) * o.quantity as real
  {
    SumNext(Ticks, [], (o, m));
    SumNext(Quantity, [], (o, m));
    MarkoutIs(o, m);
    var tick := if m.tickSize > 0.00001 then m.tickSize else 0.00001;
    assert -MarkoutTicks(o, m) * tick == -(MarkoutTicks(o, m) * tick);
    assert -MarkoutOf(o, m) * o.quantity as real == -(MarkoutOf(o, m) * o.quantity as real);
  }
}

// The measurements of a run that resolve later than the fills they are about
// (src/app/run_accounting.h, run_accounting.cpp): markouts of our fills and of the market's prints, the
// drift after aggressive fills, and what the unfilled part of an aggressive order would have cost.
module RunAccounting {
  import opened Deferred
  import opened Exchange
  import opened InstrumentSpec
  import opened RunSummary

  const TAKER_HORIZONS: seq<nat> := [5, 20, 60]

  datatype Shortfall = Shortfall(side: Intent, decisionMid: real, unfilled: nat)

  // One aggressive order's totals, taken when it ends.
  datatype AggressiveOrder = AggressiveOrder(
    side: Intent,
    decisionMid: real,
    ordered: nat,
    filled: nat,
    filledUsd: real,
    feesUsd: real,
    decisionUsd: real,
    startCycle: nat)

  // A fill of a crossing order and what it paid over the decision price: a cost when positive, in ticks, in
  // basis points and in dollars.
  datatype TakerFill = TakerFill(
    fill: Fill,
    slippageTicks: real,
    slippageBps: real,
    slippageUsd: real,
    quoteCycle: nat)

  datatype TakerTotals = TakerTotals(
    fills: nat,
    quantity: real,
    slippageTicksQuantity: real,
    slippageBpsQuantity: real,
    slippageUsd: real)

  const NO_TAKERS := TakerTotals(0, 0.0, 0.0, 0.0, 0.0)

  // What the crossing fills of a run add up to.
  function Taken(fills: seq<TakerFill>): TakerTotals {
    if fills == [] then NO_TAKERS
    else
      var t, f := Taken(fills[..|fills| - 1]), fills[|fills| - 1];
      var quantity := f.fill.quantity as real;
      TakerTotals(t.fills + 1, t.quantity + quantity, t.slippageTicksQuantity + Weighted(f.slippageTicks, quantity),
                  t.slippageBpsQuantity + Weighted(f.slippageBps, quantity), t.slippageUsd + f.slippageUsd)
  }

  function Weighted(x: real, weight: real): real {
    x * weight
  }

  ghost predicate SlipsWithin(fills: seq<TakerFill>, ticks: (real, real), bps: (real, real)) {
    forall i :: 0 <= i < |fills| ==>
      ticks.0 <= fills[i].slippageTicks <= ticks.1 && bps.0 <= fills[i].slippageBps <= bps.1
  }

  lemma WeightedBetween(x: real, weight: real, low: real, high: real)
    requires low <= x <= high && weight >= 0.0
    ensures Weighted(low, weight) <= Weighted(x, weight) <= Weighted(high, weight)
  {
  }

  lemma WeightedAdds(x: real, a: real, b: real)
    ensures Weighted(x, a + b) == Weighted(x, a) + Weighted(x, b)
  {
  }

  lemma {:induction false} TakenBetween(fills: seq<TakerFill>, ticks: (real, real), bps: (real, real))
    requires SlipsWithin(fills, ticks, bps)
    ensures
      var t := Taken(fills);
      && t.quantity >= 0.0 && t.fills == |fills|
      && Weighted(ticks.0, t.quantity) <= t.slippageTicksQuantity <= Weighted(ticks.1, t.quantity)
      && Weighted(bps.0, t.quantity) <= t.slippageBpsQuantity <= Weighted(bps.1, t.quantity)
  {
    if fills != [] {
      var before, f := fills[..|fills| - 1], fills[|fills| - 1];
      var t, quantity := Taken(before), f.fill.quantity as real;
      TakenBetween(before, ticks, bps);
      WeightedBetween(f.slippageTicks, quantity, ticks.0, ticks.1);
      WeightedBetween(f.slippageBps, quantity, bps.0, bps.1);
      WeightedAdds(ticks.0, t.quantity, quantity);
      WeightedAdds(ticks.1, t.quantity, quantity);
      WeightedAdds(bps.0, t.quantity, quantity);
      WeightedAdds(bps.1, t.quantity, quantity);
    }
  }

  // The averages of the summary; a run without crossing quantity reports zero.
  function Average(total: real, quantity: real): real {
    if quantity > 0.0 then total / quantity else 0.0
  }

  lemma AverageBetween(total: real, quantity: real, low: real, high: real)
    requires Weighted(low, quantity) <= total <= Weighted(high, quantity) && quantity > 0.0
    ensures low <= Average(total, quantity) <= high
  {
    var mean := Average(total, quantity);
    assert Weighted(mean, quantity) == total;
    WeightCancels(low, mean, quantity);
    WeightCancels(mean, high, quantity);
  }

  lemma WeightCancels(x: real, y: real, weight: real)
    requires Weighted(x, weight) <= Weighted(y, weight) && weight > 0.0
    ensures x <= y
  {
  }

  // The reported arrival slippages lie between the least and the greatest of the fills.
  lemma ArrivalIsAMean(fills: seq<TakerFill>, ticks: (real, real), bps: (real, real))
    requires SlipsWithin(fills, ticks, bps) && Taken(fills).quantity > 0.0
    ensures ticks.0 <= Average(Taken(fills).slippageTicksQuantity, Taken(fills).quantity) <= ticks.1
    ensures bps.0 <= Average(Taken(fills).slippageBpsQuantity, Taken(fills).quantity) <= bps.1
  {
    var t := Taken(fills);
    TakenBetween(fills, ticks, bps);
    AverageBetween(t.slippageTicksQuantity, t.quantity, ticks.0, ticks.1);
    AverageBetween(t.slippageBpsQuantity, t.quantity, bps.0, bps.1);
  }

  // What the quantity an order never got would have earned by now at its decision price; a cost when
  // positive. An order that filled, or a market without a price, costs nothing.
  function OpportunityUsd(p: (Shortfall, Market)): real {
    var s, m := p.0, p.1;
    if s.unfilled == 0 || s.decisionMid <= 0.0 || m.lastMid <= 0.0 then 0.0
    else
      var move := if s.side.Buying? then m.lastMid - s.decisionMid else s.decisionMid - m.lastMid;
      MoveCost(s.unfilled as real / m.quantityScale as real, UnitNotionalAt(m.contract, s.decisionMid), move, s.decisionMid)
  }

  // What a move away from `price` costs on that many units, each worth `unitValue` at it.
  function MoveCost(units: real, unitValue: real, move: real, price: real): real
    requires price > 0.0
  {
    units * unitValue * move / price
  }

  function OpportunitySum(list: seq<(Shortfall, Market)>): real {
    if list == [] then 0.0 else OpportunitySum(list[..|list| - 1]) + OpportunityUsd(list[|list| - 1])
  }

  lemma {:induction false} OpportunityConcat(a: seq<(Shortfall, Market)>, b: seq<(Shortfall, Market)>)
    ensures OpportunitySum(a + b) == OpportunitySum(a) + OpportunitySum(b)
  {
    if b == [] {
      assert a + b == a;
    } else {
      assert (a + b)[..|a + b| - 1] == a + b[..|b| - 1];
      OpportunityConcat(a, b[..|b| - 1]);
    }
  }

  // A marked account; buckets are a minute long.
  datatype EquityPoint = EquityPoint(ts: nat, equity: real) {
    function Bucket(): nat {
      ts / EQUITY_BUCKET_US
    }
  }

  const EQUITY_BUCKET_US: nat := 60000000

  function Noted(curve: seq<EquityPoint>, p: EquityPoint): seq<EquityPoint> {
    if curve != [] && p.Bucket() == curve[|curve| - 1].Bucket() then curve[|curve| - 1 := p] else curve + [p]
  }

  function NotedAll(points: seq<EquityPoint>): seq<EquityPoint> {
    if points == [] then [] else Noted(NotedAll(points[..|points| - 1]), points[|points| - 1])
  }

  // The closes: an observation is kept exactly when the next one belongs to another bucket.
  function Closes(points: seq<EquityPoint>): seq<EquityPoint> {
    if |points| <= 1 then points
    else if points[0].Bucket() == points[1].Bucket() then Closes(points[1..])
    else [points[0]] + Closes(points[1..])
  }

  lemma {:induction false} ClosesAppend(points: seq<EquityPoint>, p: EquityPoint)
    ensures Closes(points + [p]) == Noted(Closes(points), p)
    ensures points != [] ==> Closes(points) != [] && Closes(points)[|Closes(points)| - 1] == points[|points| - 1]
  {
    if |points| >= 2 {
      ClosesAppend(points[1..], p);
      assert (points + [p])[1..] == points[1..] + [p];
    } else if |points| == 1 {
      assert (points + [p])[1..] == [p];
    }
  }

  // However often a bucket is sampled, the curve holds its closes.
  lemma {:induction false} CurveIsCloses(points: seq<EquityPoint>)
    ensures NotedAll(points) == Closes(points)
  {
    if points != [] {
      var before := points[..|points| - 1];
      CurveIsCloses(before);
      ClosesAppend(before, points[|points| - 1]);
      assert before + [points[|points| - 1]] == points;
    }
  }

  // On a clock that does not go back, every bucket has one point and the curve's times go forward, which is
  // what the drawdown's duration asks of it.
  lemma {:induction false} CurveIsOrdered(points: seq<EquityPoint>)
    requires forall i, j :: 0 <= i < j < |points| ==> points[i].ts <= points[j].ts
    ensures
      var curve := NotedAll(points);
      && (forall i, j :: 0 <= i < j < |curve| ==> curve[i].ts / 60000000 < curve[j].ts / 60000000)
      && (forall i, j :: 0 <= i < j < |curve| ==> curve[i].ts <= curve[j].ts)
      && (points == [] <==> curve == [])
      && (points != [] ==> curve[|curve| - 1] == points[|points| - 1])
  {
    if points != [] {
      var before, p := points[..|points| - 1], points[|points| - 1];
      CurveIsOrdered(before);
      if before != [] {
        BucketsFollowTime(before[|before| - 1], p);
      }
    }
  }

  lemma BucketsFollowTime(a: EquityPoint, b: EquityPoint)
    requires a.ts <= b.ts
    ensures a.Bucket() <= b.Bucket()
  {
  }

  // The drift after a fill, in the fill's own favour: the markout with the other sign.
  datatype EdgeSums = EdgeSums(ticksQuantity: real, quantity: real)

  datatype PrintSums = PrintSums(byCondition: seq<EdgeSums>, samples: nat)

  // Every condition's sums moved by the prints of that condition; a seens markout has the sign of a drift.
  ghost predicate PrintsMeasured(before: PrintSums, list: seq<(Fill, Market)>, after: PrintSums) {
    && |before.byCondition| == |after.byCondition| == CONDITIONS
    && after.samples == before.samples + |list|
    && forall row :: 0 <= row < CONDITIONS ==>
         after.byCondition[row] == Moved(before.byCondition[row], TicksIn(row), QuantityIn(row), list)
  }

  ghost predicate PrintAdded(t: PrintSums, o: Fill, ticks: real, next: PrintSums)
    requires |t.byCondition| == CONDITIONS
  {
    var sums := t.byCondition[o.Row()];
    next == PrintSums(
      t.byCondition[o.Row() := EdgeSums(sums.ticksQuantity + ticks, sums.quantity + o.quantity as real)], t.samples + 1)
  }

  lemma PrintNext(before: PrintSums, list: seq<(Fill, Market)>, t: PrintSums, p: (Fill, Market), ticks: real,
                  next: PrintSums)
    requires PrintsMeasured(before, list, t) && PrintAdded(t, p.0, ticks, next) && ticks == -MarkoutTicks(p.0, p.1)
    ensures PrintsMeasured(before, list + [p], next)
  {
    forall row | 0 <= row < CONDITIONS
      ensures next.byCondition[row] == Moved(before.byCondition[row], TicksIn(row), QuantityIn(row), list + [p])
    {
      SumNext(TicksIn(row), list, p);
      SumNext(QuantityIn(row), list, p);
    }
  }

  function Moved(sums: EdgeSums, ticks: Figure, quantity: Figure, list: seq<(Fill, Market)>): EdgeSums {
    EdgeSums(sums.ticksQuantity - Sum(ticks, list), sums.quantity + Sum(quantity, list))
  }

  // The prefix of a queue that a drain has popped so far, and its next entry.
  lemma PopNext<T, C>(queue: seq<Item<T>>, k: nat, mark: C)
    requires k < |queue|
    ensures queue[k..][1..] == queue[k + 1..] && queue[k..][0] == queue[k]
    ensures Marked(queue[..k + 1], mark) == Marked(queue[..k], mark) + [(queue[k].value, mark)]
  {
    assert queue[..k + 1][..k] == queue[..k];
  }

  lemma SumNext(f: Figure, list: seq<(Fill, Market)>, p: (Fill, Market))
    ensures Sum(f, list + [p]) == Sum(f, list) + Contribution(f, p)
  {
    assert (list + [p])[..|list|] == list;
  }

  lemma OpportunityNext(list: seq<(Shortfall, Market)>, p: (Shortfall, Market))
    ensures OpportunitySum(list + [p]) == OpportunitySum(list) + OpportunityUsd(p)
  {
    assert (list + [p])[..|list|] == list;
  }

  lemma MeasuredNext(before: MarkoutTotals, list: seq<(Fill, Market)>, t: MarkoutTotals, p: (Fill, Market),
                     next: MarkoutTotals)
    requires Measured(before, list, t) && Measured(t, [p], next)
    ensures Measured(before, list + [p], next)
  {
    forall f: Figure | f.TicksIn? || f.QuantityIn? || f.CountIn? ==> f.row < CONDITIONS
      ensures Value(f, next) == Value(f, before) + Sum(f, list + [p])
    {
      SumConcat(f, list, [p]);
    }
  }

  // One observation's figures, once its three amounts are known.
  ghost predicate Added(t: MarkoutTotals, o: Fill, next: MarkoutTotals, markout: real, ticks: real, usd: real)
    requires t.Valid()
  {
    var row := o.Row();
    var b := t.byCondition[row];
    next == MarkoutTotals(
      t.adverseSelection + markout, t.quantity + o.quantity as real, t.ticksQuantity + ticks, t.usd + usd, t.count + 1,
      t.byCondition[row := BucketTotals(b.ticksQuantity + ticks, b.quantity + o.quantity as real, b.count + 1)])
  }

  lemma AddedFigure(f: Figure, t: MarkoutTotals, o: Fill, next: MarkoutTotals, markout: real, ticks: real, usd: real,
                    amount: real)
    requires f.TicksIn? || f.QuantityIn? || f.CountIn? ==> f.row < CONDITIONS
    requires t.Valid() && Added(t, o, next, markout, ticks, usd)
    requires amount == match f
                       case Adverse => markout
                       case Quantity => o.quantity as real
                       case Ticks => ticks
                       case Usd => usd
                       case Count => 1.0
                       case TicksIn(row) => if o.Row() == row then ticks else 0.0
                       case QuantityIn(row) => if o.Row() == row then o.quantity as real else 0.0
                       case CountIn(row) => if o.Row() == row then 1.0 else 0.0
    ensures next.Valid() && Value(f, next) == Value(f, t) + amount
  {
  }

  lemma AddedIsMeasured(t: MarkoutTotals, p: (Fill, Market), next: MarkoutTotals, markout: real, ticks: real, usd: real)
    requires t.Valid() && Added(t, p.0, next, markout, ticks, usd)
    requires markout == MarkoutOf(p.0, p.1) && ticks == MarkoutTicks(p.0, p.1) && usd == MarkoutUsd(p.0, p.1)
    ensures Measured(t, [p], next)
  {
    forall f: Figure | f.TicksIn? || f.QuantityIn? || f.CountIn? ==> f.row < CONDITIONS
      ensures Value(f, next) == Value(f, t) + Sum(f, [p])
    {
      SumNext(f, [], p);
      AddedFigure(f, t, p.0, next, markout, ticks, usd, Contribution(f, p));
    }
  }

  // A drift in price and in ticks, as the prints and the aggressive fills measure it.
  method DriftAmounts(o: Fill, m: Market) returns (ticks: real)
    ensures ticks == -MarkoutTicks(o, m)
  {
    var drift := if o.side.Buy? then m.lastMid - o.price else o.price - m.lastMid;
    ticks := drift / MaxReal(m.tickSize, PRICE_TICK_SIZE) * o.quantity as real;
    DriftIsMarkout(o, m, drift, ticks);
  }

  lemma DriftIsMarkout(o: Fill, m: Market, drift: real, ticks: real)
    requires drift == if o.side.Buy? then m.lastMid - o.price else o.price - m.lastMid
    requires ticks == drift / MaxReal(m.tickSize, PRICE_TICK_SIZE) * o.quantity as real
    ensures ticks == -MarkoutTicks(o, m)
  {
    var t, q, x := m.Tick(), o.quantity as real, MarkoutOf(o, m);
    assert -x / t == -(x / t);
    assert -(x / t) * q == -(x / t * q);
  }

  // The sums of one drift queue after one more entry.
  lemma MovedNext(sums: EdgeSums, list: seq<(Fill, Market)>, p: (Fill, Market), amount: real)
    requires amount == -MarkoutTicks(p.0, p.1)
    ensures
      var s := Moved(sums, Ticks, Quantity, list);
      Moved(sums, Ticks, Quantity, list + [p]) == EdgeSums(s.ticksQuantity + amount, s.quantity + p.0.quantity as real)
  {
    SumNext(Ticks, list, p);
    SumNext(Quantity, list, p);
  }

  class RunAccounting {
    const quality: ExecutionQuality
    var horizon: nat
    var pendingMarkouts: seq<Item<Fill>>
    var pendingPrints: seq<Item<Fill>>
    var prints: PrintSums
    var pendingTakerEdges: seq<seq<Item<Fill>>>
    var takerEdges: seq<EdgeSums>
    var takerFills: nat
    var takerQuantity: real
    var takerSlippageTicksQuantity: real
    var takerSlippageBpsQuantity: real
    var takerSlippageUsd: real
    var pendingShortfalls: seq<Item<Shortfall>>
    var aggressiveOrders: nat
    var shortfallFilledUsd: real
    var shortfallFeesUsd: real
    var shortfallOpportunityUsd: real
    var shortfallDecisionUsd: real
    var equityCurve: seq<EquityPoint>

    ghost predicate Valid()
      reads this, quality
    {
      && quality.markouts.Valid()
      && |prints.byCondition| == CONDITIONS
      && |pendingTakerEdges| == |takerEdges| == |TAKER_HORIZONS|
    }

    function Takers(): TakerTotals
      reads this
    {
      TakerTotals(takerFills, takerQuantity, takerSlippageTicksQuantity, takerSlippageBpsQuantity, takerSlippageUsd)
    }

    constructor (quality: ExecutionQuality)
      requires quality.markouts.Valid()
      ensures Valid() && this.quality == quality && horizon == 5
      ensures pendingMarkouts == pendingPrints == [] && pendingShortfalls == []
      ensures pendingTakerEdges == [[], [], []] && takerEdges == [NO_EDGE, NO_EDGE, NO_EDGE]
      ensures prints == PrintSums([NO_EDGE, NO_EDGE, NO_EDGE, NO_EDGE], 0)
      ensures shortfallOpportunityUsd == 0.0 && equityCurve == [] && Takers() == NO_TAKERS
    {
      this.quality := quality;
      horizon := 5;
      pendingMarkouts, pendingPrints, pendingShortfalls := [], [], [];
      pendingTakerEdges, takerEdges := [[], [], []], [NO_EDGE, NO_EDGE, NO_EDGE];
      prints := PrintSums([NO_EDGE, NO_EDGE, NO_EDGE, NO_EDGE], 0);
      takerFills, takerQuantity, takerSlippageTicksQuantity := 0, 0.0, 0.0;
      takerSlippageBpsQuantity, takerSlippageUsd := 0.0, 0.0;
      aggressiveOrders := 0;
      equityCurve := [];
      shortfallFilledUsd, shortfallFeesUsd, shortfallOpportunityUsd, shortfallDecisionUsd := 0.0, 0.0, 0.0, 0.0;
    }

    // Zero asks for the default of five cycles.
    method SetMarkoutHorizon(cycles: nat)
      modifies this`horizon
      ensures horizon == if cycles == 0 then 5 else cycles
    {
      horizon := if cycles == 0 then 5 else cycles;
    }

    method NoteFill(fill: Fill, cycle: nat)
      modifies this`pendingMarkouts
      ensures pendingMarkouts == old(pendingMarkouts) + [Item(cycle, fill)]
    {
      pendingMarkouts := pendingMarkouts + [Item(cycle, fill)];
    }

    method NoteMarketPrint(passive: Fill, cycle: nat)
      modifies this`pendingPrints
      ensures pendingPrints == old(pendingPrints) + [Item(cycle, passive)]
    {
      pendingPrints := pendingPrints + [Item(cycle, passive)];
    }

    // One fill's markout in price, in ticks and in dollars.
    static method MarkoutAmounts(o: Fill, m: Market) returns (markout: real, ticks: real, usd: real)
      ensures markout == MarkoutOf(o, m) && ticks == MarkoutTicks(o, m) && usd == MarkoutUsd(o, m)
    {
      markout := if o.side.Buy? then o.price - m.lastMid else m.lastMid - o.price;
      ticks := markout / MaxReal(m.tickSize, PRICE_TICK_SIZE) * o.quantity as real;
      usd := o.quantity as real / m.quantityScale as real * UnitNotionalAt(m.contract, m.lastMid) * markout
             / MaxReal(m.lastMid, 0.000000001);
    }

    // It is added to the totals and to its condition's.
    method MeasureMarkout(o: Fill, m: Market)
      requires quality.markouts.Valid()
      modifies quality`markouts
      ensures Measured(old(quality.markouts), [(o, m)], quality.markouts)
    {
      var markout, ticks, usd := MarkoutAmounts(o, m);
      var row := if o.condition >= 0 then o.condition else 0;
      var t := quality.markouts;
      var b := t.byCondition[row];
      quality.markouts := MarkoutTotals(
        t.adverseSelection + markout,
        t.quantity + o.quantity as real,
        t.ticksQuantity + ticks,
        t.usd + usd,
        t.count + 1,
        t.byCondition[row := BucketTotals(b.ticksQuantity + ticks, b.quantity + o.quantity as real, b.count + 1)]);
      AddedIsMeasured(t, (o, m), quality.markouts, markout, ticks, usd);
    }

    // Resolves the fills whose horizon has closed, oldest first.
    method DrainMatureMarkouts(cycle: nat, m: Market)
      requires quality.markouts.Valid()
      modifies this`pendingMarkouts, quality`markouts
      ensures
        var k := Mature(old(pendingMarkouts), cycle, horizon);
        && pendingMarkouts == old(pendingMarkouts)[k..]
        && Measured(old(quality.markouts), Marked(old(pendingMarkouts)[..k], m), quality.markouts)
    {
      ghost var queue, k := pendingMarkouts, 0;
      while pendingMarkouts != [] && cycle >= pendingMarkouts[0].start + horizon
        invariant k <= |queue| && pendingMarkouts == queue[k..]
        invariant Mature(queue, cycle, horizon) == k + Mature(queue[k..], cycle, horizon)
        invariant Measured(old(quality.markouts), Marked(queue[..k], m), quality.markouts)
        decreases |pendingMarkouts|
      {
        var observation := pendingMarkouts[0];
        PopNext(queue, k, m);
        pendingMarkouts := pendingMarkouts[1..];
        ghost var t := quality.markouts;
        MeasureMarkout(observation.value, m);
        MeasuredNext(old(quality.markouts), Marked(queue[..k], m), t, (observation.value, m), quality.markouts);
        k := k + 1;
      }
    }

    method AddPrint(o: Fill, ticks: real)
      requires |prints.byCondition| == CONDITIONS
      modifies this`prints
      ensures PrintAdded(old(prints), o, ticks, prints)
    {
      var row := if o.condition < 0 then 0 else o.condition;
      var sums := prints.byCondition[row];
      prints := PrintSums(
        prints.byCondition[row := EdgeSums(sums.ticksQuantity + ticks, sums.quantity + o.quantity as real)],
        prints.samples + 1);
    }

    method DrainMaturePrints(cycle: nat, m: Market)
      requires |prints.byCondition| == CONDITIONS
      modifies this`pendingPrints, this`prints
      ensures
        var k := Mature(old(pendingPrints), cycle, horizon);
        && pendingPrints == old(pendingPrints)[k..]
        && PrintsMeasured(old(prints), Marked(old(pendingPrints)[..k], m), prints)
    {
      ghost var queue, k := pendingPrints, 0;
      while pendingPrints != [] && cycle >= pendingPrints[0].start + horizon
        invariant k <= |queue| && pendingPrints == queue[k..]
        invariant Mature(queue, cycle, horizon) == k + Mature(queue[k..], cycle, horizon)
        invariant PrintsMeasured(old(prints), Marked(queue[..k], m), prints)
        decreases |pendingPrints|
      {
        var seen := pendingPrints[0].value;
        PopNext(queue, k, m);
        pendingPrints := pendingPrints[1..];
        var ticks := DriftAmounts(seen, m);
        ghost var before := prints;
        AddPrint(seen, ticks);
        PrintNext(old(prints), Marked(queue[..k], m), before, (seen, m), ticks, prints);
        k := k + 1;
      }
    }

    // The totals, and one entry per horizon so that each queue drains oldest first at its own.
    method NoteTakerFill(ghost fills: seq<TakerFill>, f: TakerFill)
      requires |pendingTakerEdges| == |TAKER_HORIZONS| && Takers() == Taken(fills)
      modifies this`takerFills, this`takerQuantity, this`takerSlippageTicksQuantity, this`takerSlippageBpsQuantity,
               this`takerSlippageUsd, this`pendingTakerEdges
      ensures Takers() == Taken(fills + [f])
      ensures |pendingTakerEdges| == |TAKER_HORIZONS|
      ensures forall i :: 0 <= i < |TAKER_HORIZONS| ==>
                pendingTakerEdges[i] == old(pendingTakerEdges)[i] + [Item(f.quoteCycle, f.fill)]
    {
      ghost var next := Taken(fills + [f]);
      assert (fills + [f])[..|fills + [f]| - 1] == fills;
      takerFills := takerFills + 1;
      var quantity := f.fill.quantity as real;
      takerQuantity := takerQuantity + quantity;
      takerSlippageTicksQuantity := takerSlippageTicksQuantity + f.slippageTicks * quantity;
      takerSlippageBpsQuantity := takerSlippageBpsQuantity + f.slippageBps * quantity;
      takerSlippageUsd := takerSlippageUsd + f.slippageUsd;
      var i := 0;
      while i < |pendingTakerEdges|
        invariant Takers() == next
        invariant 0 <= i <= |pendingTakerEdges| == |TAKER_HORIZONS|
        invariant forall j :: 0 <= j < i ==>
                    pendingTakerEdges[j] == old(pendingTakerEdges)[j] + [Item(f.quoteCycle, f.fill)]
        invariant forall j :: i <= j < |TAKER_HORIZONS| ==> pendingTakerEdges[j] == old(pendingTakerEdges)[j]
      {
        pendingTakerEdges := pendingTakerEdges[i := pendingTakerEdges[i] + [Item(f.quoteCycle, f.fill)]];
        i := i + 1;
      }
    }

    // The figures of an order that are known when it ends; its opportunity cost waits.
    method NoteAggressiveOrder(order: AggressiveOrder)
      modifies this`aggressiveOrders, this`shortfallFilledUsd, this`shortfallFeesUsd, this`shortfallDecisionUsd,
               this`pendingShortfalls
      ensures aggressiveOrders == old(aggressiveOrders) + 1
      ensures shortfallFilledUsd == old(shortfallFilledUsd) + order.filledUsd
      ensures shortfallFeesUsd == old(shortfallFeesUsd) + order.feesUsd
      ensures shortfallDecisionUsd == old(shortfallDecisionUsd) + order.decisionUsd
      ensures pendingShortfalls == old(pendingShortfalls) +
                [Item(order.startCycle, Shortfall(order.side, order.decisionMid, MaxInt(0, order.ordered - order.filled)))]
    {
      aggressiveOrders := aggressiveOrders + 1;
      shortfallFilledUsd := shortfallFilledUsd + order.filledUsd;
      shortfallFeesUsd := shortfallFeesUsd + order.feesUsd;
      shortfallDecisionUsd := shortfallDecisionUsd + order.decisionUsd;
      var unfilled: nat := if order.ordered > order.filled then order.ordered - order.filled else 0;
      pendingShortfalls := pendingShortfalls +
        [Item(order.startCycle, Shortfall(order.side, order.decisionMid, unfilled))];
    }

    // The drift queue of one horizon.
    method DrainTakerEdges(index: nat, cycle: nat, m: Market)
      requires index < |pendingTakerEdges| == |takerEdges| == |TAKER_HORIZONS|
      modifies this`pendingTakerEdges, this`takerEdges
      ensures
        var queue := old(pendingTakerEdges)[index];
        var k := Mature(queue, cycle, TAKER_HORIZONS[index]);
        && pendingTakerEdges == old(pendingTakerEdges)[index := queue[k..]]
        && takerEdges == old(takerEdges)[index := Moved(old(takerEdges)[index], Ticks, Quantity, Marked(queue[..k], m))]
    {
      var remaining, sums := DrainEdges(pendingTakerEdges[index], takerEdges[index], TAKER_HORIZONS[index], cycle, m);
      pendingTakerEdges := pendingTakerEdges[index := remaining];
      takerEdges := takerEdges[index := sums];
    }

    static method DrainEdges(queue: seq<Item<Fill>>, before: EdgeSums, wait: nat, cycle: nat, m: Market)
      returns (remaining: seq<Item<Fill>>, sums: EdgeSums)
      ensures
        var k := Mature(queue, cycle, wait);
        remaining == queue[k..] && sums == Moved(before, Ticks, Quantity, Marked(queue[..k], m))
    {
      ghost var k := 0;
      remaining, sums := queue, before;
      while remaining != [] && cycle >= remaining[0].start + wait
        invariant k <= |queue| && remaining == queue[k..]
        invariant Mature(queue, cycle, wait) == k + Mature(queue[k..], cycle, wait)
        invariant sums == Moved(before, Ticks, Quantity, Marked(queue[..k], m))
        decreases |remaining|
      {
        PopNext(queue, k, m);
        sums := AddDrift(sums, remaining[0].value, m, before, Marked(queue[..k], m));
        remaining := remaining[1..];
        k := k + 1;
      }
    }

    static method AddDrift(sums: EdgeSums, o: Fill, m: Market, ghost before: EdgeSums, ghost list: seq<(Fill, Market)>)
      returns (next: EdgeSums)
      requires sums == Moved(before, Ticks, Quantity, list)
      ensures next == Moved(before, Ticks, Quantity, list + [(o, m)])
    {
      var ticks := DriftAmounts(o, m);
      MovedNext(before, list, (o, m), ticks);
      next := EdgeSums(sums.ticksQuantity + ticks, sums.quantity + o.quantity as real);
    }

    static method MeasureOpportunity(s: Shortfall, m: Market) returns (usd: real)
      ensures usd == OpportunityUsd((s, m))
    {
      if s.unfilled == 0 || s.decisionMid <= 0.0 || m.lastMid <= 0.0 {
        return 0.0;
      }
      var units := s.unfilled as real / m.quantityScale as real;
      var move := if s.side.Buying? then m.lastMid - s.decisionMid else s.decisionMid - m.lastMid;
      var unitValue := UnitNotionalAt(m.contract, s.decisionMid);
      return MoveCost(units, unitValue, move, s.decisionMid);
    }

    // Takes the oldest shortfall out and adds what it cost.
    method ResolveShortfall(m: Market, ghost done: seq<(Shortfall, Market)>, ghost start: real)
      requires pendingShortfalls != [] && shortfallOpportunityUsd == start + OpportunitySum(done)
      modifies this`pendingShortfalls, this`shortfallOpportunityUsd
      ensures pendingShortfalls == old(pendingShortfalls)[1..]
      ensures shortfallOpportunityUsd == start + OpportunitySum(done + [(old(pendingShortfalls)[0].value, m)])
    {
      var s := pendingShortfalls[0].value;
      pendingShortfalls := pendingShortfalls[1..];
      var usd := MeasureOpportunity(s, m);
      OpportunityNext(done, (s, m));
      shortfallOpportunityUsd := shortfallOpportunityUsd + usd;
    }

    method DrainShortfalls(cycle: nat, m: Market)
      modifies this`pendingShortfalls, this`shortfallOpportunityUsd
      ensures
        var k := Mature(old(pendingShortfalls), cycle, horizon);
        && pendingShortfalls == old(pendingShortfalls)[k..]
        && shortfallOpportunityUsd
           == old(shortfallOpportunityUsd) + OpportunitySum(Marked(old(pendingShortfalls)[..k], m))
    {
      ghost var queue, k := pendingShortfalls, 0;
      while pendingShortfalls != [] && cycle >= pendingShortfalls[0].start + horizon
        invariant k <= |queue| && pendingShortfalls == queue[k..]
        invariant Mature(queue, cycle, horizon) == k + Mature(queue[k..], cycle, horizon)
        invariant shortfallOpportunityUsd
                  == old(shortfallOpportunityUsd) + OpportunitySum(Marked(queue[..k], m))
        decreases |pendingShortfalls|
      {
        PopNext(queue, k, m);
        MatureNext(queue, k, cycle, horizon);
        ResolveShortfall(m, Marked(queue[..k], m), old(shortfallOpportunityUsd));
        k := k + 1;
      }
    }

    // One point per bucket: a later observation in the last one's bucket replaces it.
    method NoteEquity(ts: nat, equity: real)
      modifies this`equityCurve
      ensures equityCurve == Noted(old(equityCurve), EquityPoint(ts, equity))
    {
      if equityCurve != [] && ts / EQUITY_BUCKET_US == equityCurve[|equityCurve| - 1].ts / EQUITY_BUCKET_US {
        equityCurve := equityCurve[|equityCurve| - 1 := EquityPoint(ts, equity)];
        return;
      }
      equityCurve := equityCurve + [EquityPoint(ts, equity)];
    }

    // The drift at each horizon, then the opportunity cost of the unfilled remainders.
    method DrainTakerMeasurements(cycle: nat, m: Market)
      requires |pendingTakerEdges| == |takerEdges| == |TAKER_HORIZONS|
      modifies this`pendingTakerEdges, this`takerEdges, this`pendingShortfalls, this`shortfallOpportunityUsd
      ensures |pendingTakerEdges| == |takerEdges| == |TAKER_HORIZONS|
      ensures forall i :: 0 <= i < 3 ==>
                var queue := old(pendingTakerEdges)[i];
                var k := Mature(queue, cycle, [5, 20, 60][i]);
                && pendingTakerEdges[i] == queue[k..]
                && takerEdges[i] == Moved(old(takerEdges)[i], Ticks, Quantity, Marked(queue[..k], m))
      ensures
        var k := Mature(old(pendingShortfalls), cycle, horizon);
        && pendingShortfalls == old(pendingShortfalls)[k..]
        && shortfallOpportunityUsd
           == old(shortfallOpportunityUsd) + OpportunitySum(Marked(old(pendingShortfalls)[..k], m))
    {
      var index := 0;
      while index < |pendingTakerEdges|
        invariant 0 <= index <= |pendingTakerEdges| == |takerEdges| == |TAKER_HORIZONS|
        invariant pendingShortfalls == old(pendingShortfalls) && shortfallOpportunityUsd == old(shortfallOpportunityUsd)
        invariant forall i :: index <= i < |TAKER_HORIZONS| ==>
                    pendingTakerEdges[i] == old(pendingTakerEdges)[i] && takerEdges[i] == old(takerEdges)[i]
        invariant forall i :: 0 <= i < index ==>
                    var queue := old(pendingTakerEdges)[i];
                    var k := Mature(queue, cycle, TAKER_HORIZONS[i]);
                    && pendingTakerEdges[i] == queue[k..]
                    && takerEdges[i] == Moved(old(takerEdges)[i], Ticks, Quantity, Marked(queue[..k], m))
      {
        DrainTakerEdges(index, cycle, m);
        index := index + 1;
      }
      DrainShortfalls(cycle, m);
    }
  }

  const NO_EDGE := EdgeSums(0.0, 0.0)

  // ------------------------------------------------------------------------------------ over a whole run

  // A drain takes the totals of one run to those of the longer run.
  lemma MarkoutsTrackRun(ops: seq<Op<Fill, Market>>, horizon: nat, cycle: nat, m: Market,
                         t: MarkoutTotals, next: MarkoutTotals)
    requires Measured(NO_MARKOUTS, Resolutions(ops, horizon), t)
    requires
      var queue := Pending(ops, horizon);
      Measured(t, Marked(queue[..Mature(queue, cycle, horizon)], m), next)
    ensures Measured(NO_MARKOUTS, Resolutions(ops + [Drain(cycle, m)], horizon), next)
  {
    var queue := Pending(ops, horizon);
    var taken := Marked(queue[..Mature(queue, cycle, horizon)], m);
    DrainStep(ops, cycle, m, horizon);
    forall f: Figure | f.TicksIn? || f.QuantityIn? || f.CountIn? ==> f.row < CONDITIONS
      ensures Value(f, next) == Value(f, NO_MARKOUTS) + Sum(f, Resolutions(ops, horizon) + taken)
    {
      SumConcat(f, Resolutions(ops, horizon), taken);
    }
  }

  // So after any run every figure is what computing each fill on its own would give: its contribution at
  // the first drain past its horizon, nothing while it waits.
  lemma MarkoutsAreNaive(ops: seq<Op<Fill, Market>>, horizon: nat, t: MarkoutTotals, f: Figure)
    requires Forward(ops) && Measured(NO_MARKOUTS, Resolutions(ops, horizon), t)
    requires f.TicksIn? || f.QuantityIn? || f.CountIn? ==> f.row < CONDITIONS
    ensures Value(f, t) == Sum(f, Naive(ops, horizon, |Items(ops)|))
  {
    DrainsAreNaive(ops, horizon);
    NothingMeasured(f);
  }

  lemma NothingMeasured(f: Figure)
    requires f.TicksIn? || f.QuantityIn? || f.CountIn? ==> f.row < CONDITIONS
    ensures Value(f, NO_MARKOUTS) == 0.0
  {
  }

  // The conditions share the fills out: their quantities, ticks and counts add up to the totals.
  lemma {:induction false} ConditionsPartition(list: seq<(Fill, Market)>)
    ensures Sum(Ticks, list)
         == Sum(TicksIn(0), list) + Sum(TicksIn(1), list) + Sum(TicksIn(2), list) + Sum(TicksIn(3), list)
    ensures Sum(Quantity, list)
         == Sum(QuantityIn(0), list) + Sum(QuantityIn(1), list) + Sum(QuantityIn(2), list) + Sum(QuantityIn(3), list)
    ensures Sum(Count, list)
         == Sum(CountIn(0), list) + Sum(CountIn(1), list) + Sum(CountIn(2), list) + Sum(CountIn(3), list)
         == |list| as real
  {
    if list != [] {
      ConditionsPartition(list[..|list| - 1]);
    }
  }

  // The opportunity cost after any run is the sum over orders, each at the drain it was due at: orders are
  // queued when they end but carry the cycle they were submitted in, so an order can wait for one queued
  // before it that was submitted later.
  lemma {:induction false} ShortfallsTrackRun(ops: seq<Op<Shortfall, Market>>, horizon: nat)
    requires Forward(ops)
    ensures OpportunityRun(ops, horizon) == OpportunitySum(Naive(ops, horizon, |Items(ops)|))
  {
    OpportunityRunIs(ops, horizon);
    DrainsAreNaive(ops, horizon);
  }

  // What the last operation of a run adds to the running total, and the total.
  function OpportunityOf(before: seq<Op<Shortfall, Market>>, op: Op<Shortfall, Market>, horizon: nat): real {
    if op.Note? then 0.0
    else
      var queue := Pending(before, horizon);
      OpportunitySum(Marked(queue[..Mature(queue, op.cycle, horizon)], op.mark))
  }

  function OpportunityRun(ops: seq<Op<Shortfall, Market>>, horizon: nat): real {
    if ops == [] then 0.0
    else
      var before := ops[..|ops| - 1];
      OpportunityRun(before, horizon) + OpportunityOf(before, ops[|ops| - 1], horizon)
  }

  lemma OpportunityStep(before: seq<Op<Shortfall, Market>>, op: Op<Shortfall, Market>, horizon: nat, total: real)
    requires total == OpportunitySum(Resolutions(before, horizon))
    ensures OpportunitySum(Resolutions(before + [op], horizon)) == total + OpportunityOf(before, op, horizon)
  {
    if op.Drain? {
      var queue := Pending(before, horizon);
      var taken := Marked(queue[..Mature(queue, op.cycle, horizon)], op.mark);
      DrainStep(before, op.cycle, op.mark, horizon);
      OpportunityConcat(Resolutions(before, horizon), taken);
    } else {
      NoteStep(before, op.item, horizon);
    }
  }

  lemma {:induction false} OpportunityRunIs(ops: seq<Op<Shortfall, Market>>, horizon: nat)
    ensures OpportunityRun(ops, horizon) == OpportunitySum(Resolutions(ops, horizon))
  {
    if ops != [] {
      var before, last := ops[..|ops| - 1], ops[|ops| - 1];
      OpportunityRunIs(before, horizon);
      OpportunityStep(before, last, horizon, OpportunityRun(before, horizon));
      assert before + [last] == ops;
    }
  }
}

// Working one parent order: its cost against the price it was decided at and against the time-weighted
// middle of its window (src/app/run_accounting.h:225-282, run_accounting.cpp:341-517).
module ParentOrder {
  import opened Exchange
  import opened InstrumentSpec
  import opened Reals

  datatype ParentSpec = ParentSpec(side: Intent, quantity: nat, horizonUs: nat, ticksPerSecond: nat) {
    predicate Requested() {
      !side.Unknown? && quantity > 0 && horizonUs > 0
    }

    // A cost is signed for the side being worked.
    function Sign(): real {
      if side.Buying? then 1.0 else -1.0
    }
  }

  // The integral of the middle so far, the time it covers, and the observation that is still open.
  datatype Benchmark = Benchmark(area: real, time: nat, lastTs: nat, lastMid: real)

  datatype Fills = Fills(
    quantity: nat,
    units: real,
    unitsPrice: real,
    usd: real,
    fees: real,
    makerUnits: real,
    makerFees: real,
    takerFees: real)

  // What the decision fixed: the price, and the terms that turn prices into dollars.
  datatype Decision = Decision(ts: nat, mid: real, contract: Contract, scale: nat)

  datatype Parent = Parent(
    spec: ParentSpec,
    started: bool,
    finished: bool,
    decision: Decision,
    benchmark: Benchmark,
    fills: Fills,
    children: nat,
    horizonMid: real,
    opportunityUsd: real,
    span: nat)

  const NO_FILLS := Fills(0, 0.0, 0.0, 0.0, 0.0, 0.0, 0.0, 0.0)

  function Fresh(spec: ParentSpec): Parent {
    Parent(spec, false, false, Decision(0, 0.0, Contract(0.0, 1.0), 1), Benchmark(0.0, 0, 0, 0.0), NO_FILLS, 0, 0.0, 0.0, 0)
  }

  // ------------------------------------------------------------------------------------------ the steps

  // A middle held for a time.
  function Held(mid: real, time: nat): real {
    mid * time as real
  }

  // `mid` held from the last observation until `ts`; a clock that does not advance adds nothing.
  function Advance(b: Benchmark, ts: nat, mid: real): Benchmark {
    if ts > b.lastTs
    then b.(area := b.area + Held(mid, ts - b.lastTs), time := b.time + (ts - b.lastTs))
    else b
  }

  function UnitsAt(d: Decision, quantity: nat): real
    requires d.scale > 0
  {
    quantity as real / d.scale as real
  }

  // The cost in dollars of `units` traded a signed move away from the decision price.
  function MoveCost(d: Decision, units: real, move: real): real
    requires d.mid > 0.0
  {
    units * UnitNotionalAt(d.contract, d.mid) * move / d.mid
  }

  function Started(p: Parent, ts: nat, mid: real, contract: Contract, scale: nat): Parent {
    if !p.spec.Requested() || p.started || mid <= 0.0 then p
    else
      p.(started := true, decision := Decision(ts, mid, contract, if scale > 1 then scale else 1),
         benchmark := p.benchmark.(lastTs := ts, lastMid := mid))
  }

  predicate Working(p: Parent) {
    p.started && !p.finished
  }

  function Observed(p: Parent, ts: nat, mid: real): Parent {
    if !Working(p) || mid <= 0.0 then p
    else p.(benchmark := Advance(p.benchmark, ts, p.benchmark.lastMid).(lastTs := ts, lastMid := mid))
  }

  function Filled(p: Parent, side: Side, price: real, quantity: nat, fee: real, role: LiquidityRole): Parent
    requires Valid(p)
  {
    if !Working(p) || quantity == 0 then p
    else
      var d, f := p.decision, p.fills;
      var units := UnitsAt(d, quantity);
      var move := if side.Buy? then price - d.mid else d.mid - price;
      p.(fills := Fills(
           f.quantity + quantity, f.units + units, f.unitsPrice + units * price, f.usd + MoveCost(d, units, move),
           f.fees + fee, if role.Maker? then f.makerUnits + units else f.makerUnits,
           if role.Maker? then f.makerFees + fee else f.makerFees,
           if role.Taker? then f.takerFees + fee else f.takerFees))
  }

  // The right endpoint closes the integral, and what never filled is charged at the horizon's price.
  function Finished(p: Parent, ts: nat, mid: real): Parent
    requires Valid(p)
  {
    if !Working(p) then p
    else
      var d := p.decision;
      var unfilled := p.spec.quantity - p.fills.quantity;
      p.(finished := true,
         benchmark := Advance(p.benchmark, ts, if mid > 0.0 then mid else p.benchmark.lastMid),
         horizonMid := mid,
         span := if ts > d.ts then ts - d.ts else 0,
         opportunityUsd := p.opportunityUsd +
           if unfilled <= 0 || mid <= 0.0 then 0.0
           else MoveCost(d, UnitsAt(d, unfilled), if p.spec.side.Buying? then mid - d.mid else d.mid - mid))
  }

  ghost predicate Valid(p: Parent) {
    && p.decision.scale > 0
    && (p.started ==> p.spec.Requested() && p.decision.mid > 0.0 && p.benchmark.lastMid > 0.0)
    && (p.finished ==> p.started)
  }

  datatype Event =
    | Start(ts: nat, mid: real, contract: Contract, scale: nat)
    | Observe(ts: nat, mid: real)
    | Child
    | Fill(side: Side, price: real, quantity: nat, fee: real, role: LiquidityRole)
    | Finish(ts: nat, mid: real)

  function Step(p: Parent, e: Event): (q: Parent)
    requires Valid(p)
    ensures Valid(q) && q.spec == p.spec
  {
    match e
    case Start(ts, mid, contract, scale) => Started(p, ts, mid, contract, scale)
    case Observe(ts, mid) => Observed(p, ts, mid)
    case Child => if Working(p) then p.(children := p.children + 1) else p
    case Fill(side, price, quantity, fee, role) => Filled(p, side, price, quantity, fee, role)
    case Finish(ts, mid) => Finished(p, ts, mid)
  }

  function Run(spec: ParentSpec, events: seq<Event>): (p: Parent)
    ensures Valid(p) && p.spec == spec
  {
    if events == [] then Fresh(spec) else Step(Run(spec, events[..|events| - 1]), events[|events| - 1])
  }

  // ------------------------------------------------------------------- the time-weighted benchmark

  function Twap(p: Parent): real {
    if p.benchmark.time > 0 then p.benchmark.area / p.benchmark.time as real else p.decision.mid
  }

  // The middles the measurement used, in order: the decision, what was seen while working, and the close.
  function Mids(spec: ParentSpec, events: seq<Event>): seq<real> {
    if events == [] then []
    else
      var before, e := events[..|events| - 1], events[|events| - 1];
      Mids(spec, before) + Used(Run(spec, before), e)
  }

  function Used(p: Parent, e: Event): seq<real> {
    match e
    case Start(ts, mid, contract, scale) => if !p.started && p.spec.Requested() && mid > 0.0 then [mid] else []
    case Observe(ts, mid) => if Working(p) && mid > 0.0 then [mid] else []
    case Finish(ts, mid) => if Working(p) && mid > 0.0 && ts > p.benchmark.lastTs then [mid] else []
    case _ => []
  }

  ghost predicate Within(mids: seq<real>, lo: real, hi: real) {
    forall i :: 0 <= i < |mids| ==> lo <= mids[i] <= hi
  }

  // The integral lies between the two constants held over the same time.
  ghost predicate AreaBounded(b: Benchmark, lo: real, hi: real) {
    Held(lo, b.time) <= b.area <= Held(hi, b.time)
  }

  ghost predicate Bounded(p: Parent, lo: real, hi: real) {
    var b := p.benchmark;
    && AreaBounded(b, lo, hi)
    && (p.started ==> lo <= b.lastMid <= hi && lo <= p.decision.mid <= hi)
    && (!p.started ==> b.time == 0)
  }

  lemma AdvanceStaysBounded(b: Benchmark, ts: nat, mid: real, lo: real, hi: real)
    requires AreaBounded(b, lo, hi) && lo <= mid <= hi
    ensures AreaBounded(Advance(b, ts, mid), lo, hi)
  {
    if ts > b.lastTs {
      HeldAdds(lo, b.time, ts - b.lastTs);
      HeldAdds(hi, b.time, ts - b.lastTs);
      HeldOrdered(lo, mid, ts - b.lastTs);
      HeldOrdered(mid, hi, ts - b.lastTs);
    }
  }

  lemma HeldAdds(mid: real, t: nat, u: nat)
    ensures Held(mid, t + u) == Held(mid, t) + Held(mid, u)
  {
    assert (t + u) as real == t as real + u as real;
  }

  lemma HeldOrdered(a: real, b: real, t: nat)
    requires a <= b
    ensures Held(a, t) <= Held(b, t)
  {
    assert (b - a) * t as real >= 0.0;
  }

  // What a step does to the benchmark, and to nothing the bounds speak of.
  function BenchmarkAfter(p: Parent, e: Event): Benchmark {
    var b := p.benchmark;
    match e
    case Start(ts, mid, contract, scale) =>
      if !p.started && p.spec.Requested() && mid > 0.0 then b.(lastTs := ts, lastMid := mid) else b
    case Observe(ts, mid) =>
      if Working(p) && mid > 0.0 then Advance(b, ts, b.lastMid).(lastTs := ts, lastMid := mid) else b
    case Finish(ts, mid) => if Working(p) then Advance(b, ts, if mid > 0.0 then mid else b.lastMid) else b
    case _ => b
  }

  lemma StepBenchmark(p: Parent, e: Event)
    requires Valid(p)
    ensures
      var q, starts := Step(p, e), e.Start? && !p.started && p.spec.Requested() && e.mid > 0.0;
      && q.benchmark == BenchmarkAfter(p, e) && q.started == (p.started || starts)
      && q.decision.mid == if starts then e.mid else p.decision.mid
  {
  }

  lemma BenchmarkStaysBounded(p: Parent, e: Event, lo: real, hi: real)
    requires Bounded(p, lo, hi) && Within(Used(p, e), lo, hi)
    ensures AreaBounded(BenchmarkAfter(p, e), lo, hi)
    ensures p.started ==> lo <= BenchmarkAfter(p, e).lastMid <= hi
    ensures Used(p, e) != [] && !e.Finish? ==> BenchmarkAfter(p, e).lastMid == Used(p, e)[0]
  {
    if Working(p) {
      if Used(p, e) != [] {
        assert lo <= Used(p, e)[0] <= hi;
      }
      if e.Observe? || (e.Finish? && e.mid <= 0.0) {
        AdvanceStaysBounded(p.benchmark, e.ts, p.benchmark.lastMid, lo, hi);
      } else if e.Finish? && e.ts > p.benchmark.lastTs {
        AdvanceStaysBounded(p.benchmark, e.ts, e.mid, lo, hi);
      }
    }
  }

  lemma StepStaysBounded(p: Parent, e: Event, lo: real, hi: real)
    requires Valid(p) && Bounded(p, lo, hi) && Within(Used(p, e), lo, hi)
    ensures Bounded(Step(p, e), lo, hi)
  {
    StepBenchmark(p, e);
    BenchmarkStaysBounded(p, e, lo, hi);
    if e.Start? && Used(p, e) != [] {
      assert lo <= Used(p, e)[0] <= hi;
    }
  }

  lemma {:induction false} RunStaysBounded(spec: ParentSpec, events: seq<Event>, lo: real, hi: real)
    requires Within(Mids(spec, events), lo, hi)
    ensures Bounded(Run(spec, events), lo, hi)
  {
    if events != [] {
      var before, e := events[..|events| - 1], events[|events| - 1];
      var mids, used := Mids(spec, before), Used(Run(spec, before), e);
      assert forall i :: 0 <= i < |mids| ==> mids[i] == (mids + used)[i];
      assert forall i :: 0 <= i < |used| ==> used[i] == (mids + used)[|mids| + i];
      RunStaysBounded(spec, before, lo, hi);
      StepStaysBounded(Run(spec, before), e, lo, hi);
    }
  }

  // The benchmark lies between the least and the greatest middle the measurement used, whatever the clock
  // does: a step back in time adds neither area nor time.
  lemma TwapBetweenMids(spec: ParentSpec, events: seq<Event>, lo: real, hi: real)
    requires Within(Mids(spec, events), lo, hi) && Run(spec, events).started
    ensures lo <= Twap(Run(spec, events)) <= hi
  {
    RunStaysBounded(spec, events, lo, hi);
    var b := Run(spec, events).benchmark;
    if b.time > 0 {
      MeanBounds(b.area, b.time, lo, hi);
    }
  }

  lemma MeanBounds(area: real, time: nat, lo: real, hi: real)
    requires time > 0 && Held(lo, time) <= area <= Held(hi, time)
    ensures lo <= area / time as real <= hi
  {
    var t := time as real;
    var mean := area / t;
    assert mean * t == area;
    assert (mean - lo) * t >= 0.0 && (hi - mean) * t >= 0.0;
    SignOfFactor(mean - lo, t);
    SignOfFactor(hi - mean, t);
  }

  lemma {:induction false} MidsArePositive(spec: ParentSpec, events: seq<Event>, i: nat)
    requires i < |Mids(spec, events)|
    ensures Mids(spec, events)[i] > 0.0
  {
    var before, e := events[..|events| - 1], events[|events| - 1];
    if i < |Mids(spec, before)| {
      MidsArePositive(spec, before, i);
    } else {
      assert Used(Run(spec, before), e) == [e.mid];
    }
  }

  // Some positive bounds hold of any run's middles.
  lemma {:induction false} MidsHaveBounds(mids: seq<real>) returns (lo: real, hi: real)
    requires forall i :: 0 <= i < |mids| ==> mids[i] > 0.0
    ensures lo > 0.0 && Within(mids, lo, hi)
  {
    if mids == [] {
      lo, hi := 1.0, 1.0;
    } else {
      var last := mids[|mids| - 1];
      lo, hi := MidsHaveBounds(mids[..|mids| - 1]);
      assert forall i :: 0 <= i < |mids| - 1 ==> mids[i] == mids[..|mids| - 1][i];
      lo, hi := MinReal(lo, last), MaxReal(hi, last);
    }
  }

  // So the benchmark of a started run is a price.
  lemma TwapIsPositive(spec: ParentSpec, events: seq<Event>)
    requires Run(spec, events).started
    ensures Twap(Run(spec, events)) > 0.0
  {
    forall i | 0 <= i < |Mids(spec, events)| ensures Mids(spec, events)[i] > 0.0 {
      MidsArePositive(spec, events, i);
    }
    var lo, hi := MidsHaveBounds(Mids(spec, events));
    TwapBetweenMids(spec, events, lo, hi);
  }

  // -------------------------------------------------------------------------------- the two shortfalls

  // The cost, signed by `k`, of `units` bought for `unitsPrice` in all, against `price`.
  function Against(k: real, units: real, unitsPrice: real, price: real): real {
    k * (unitsPrice - price * units)
  }

  // The cost, signed by `k`, of `units` moving by `move`.
  function Charge(k: real, units: real, move: real): real {
    k * (units * move)
  }

  // The dollars a unit gains per unit of price, with the parent's sign.
  function Leverage(p: Parent): real {
    p.spec.Sign() * p.decision.contract.multiplier
  }

  function ArrivalUsd(p: Parent): real {
    p.fills.usd + p.fills.fees + p.opportunityUsd
  }

  function TotalUnits(p: Parent): real
    requires Valid(p)
  {
    UnitsAt(p.decision, p.spec.quantity)
  }

  // The value of a unit at the benchmark, and the two terms measured against it.
  function FilledVsTwapUsd(p: Parent, twap: real): real
    requires twap > 0.0
  {
    UnitNotionalAt(p.decision.contract, twap) * p.spec.Sign() * (p.fills.unitsPrice - twap * p.fills.units) / twap
  }

  function OpportunityVsTwapUsd(p: Parent, twap: real): real
    requires Valid(p) && twap > 0.0
  {
    (TotalUnits(p) - p.fills.units) * UnitNotionalAt(p.decision.contract, twap) * p.spec.Sign()
      * (p.horizonMid - twap) / twap
  }

  function TwapUsd(p: Parent, twap: real): real
    requires Valid(p) && twap > 0.0
  {
    FilledVsTwapUsd(p, twap) + OpportunityVsTwapUsd(p, twap) + p.fills.fees
  }

  ghost predicate PriceQuoted(p: Parent) {
    p.decision.contract.unitNotionalUsd <= 0.0
  }

  ghost predicate OnSide(spec: ParentSpec, events: seq<Event>) {
    forall i :: 0 <= i < |events| && events[i].Fill? ==> events[i].side == spec.side.AtVenue()
  }

  lemma QuotedCost(d: Decision, units: real, move: real)
    requires d.mid > 0.0 && d.contract.unitNotionalUsd <= 0.0
    ensures MoveCost(d, units, move) == d.contract.multiplier * (units * move)
  {
    var m := d.contract.multiplier;
    assert units * (d.mid * m) * move == m * (units * move) * d.mid;
    QuotientIs(units * (d.mid * m) * move, d.mid, m * (units * move));
  }

  // What the running sums stand for, on a price-quoted instrument.
  ghost predicate Costed(p: Parent)
    requires Valid(p)
  {
    var d, f := p.decision, p.fills;
    && (p.started && PriceQuoted(p) ==>
          f.units == UnitsAt(d, f.quantity) && f.usd == Against(Leverage(p), f.units, f.unitsPrice, d.mid))
    && (p.finished && PriceQuoted(p) ==> p.opportunityUsd == Missed(p))
    && (!p.started ==> f == NO_FILLS)
    && (!p.finished ==> p.opportunityUsd == 0.0)
  }

  function Missed(p: Parent): real
    requires Valid(p)
  {
    var left := p.spec.quantity - p.fills.quantity;
    if left <= 0 || p.horizonMid <= 0.0 then 0.0
    else Charge(Leverage(p), UnitsAt(p.decision, left), p.horizonMid - p.decision.mid)
  }

  lemma SignedMove(spec: ParentSpec, m: real, units: real, from: real, to: real)
    requires !spec.side.Unknown?
    ensures m * (units * (if spec.side.Buying? then to - from else from - to)) == Charge(spec.Sign() * m, units, to - from)
  {
    if spec.side.Selling? {
      assert units * (from - to) == -(units * (to - from));
    }
  }

  lemma AgainstAdds(k: real, units: real, unitsPrice: real, more: real, price: real, base: real)
    ensures Against(k, units + more, unitsPrice + more * price, base)
         == Against(k, units, unitsPrice, base) + Charge(k, more, price - base)
  {
    assert unitsPrice + more * price - base * (units + more) == (unitsPrice - base * units) + more * (price - base);
    Distribute(k, unitsPrice - base * units, more * (price - base));
  }

  lemma UnitsAdd(d: Decision, a: nat, b: nat)
    requires d.scale > 0
    ensures UnitsAt(d, a + b) == UnitsAt(d, a) + UnitsAt(d, b)
  {
    assert (a + b) as real == a as real + b as real;
    QuotientAdds(a as real, b as real, d.scale as real);
  }

  lemma FillIsCosted(p: Parent, price: real, quantity: nat, fee: real, role: LiquidityRole)
    requires Valid(p) && Costed(p) && p.started
    ensures Costed(Filled(p, p.spec.side.AtVenue(), price, quantity, fee, role))
  {
    if Working(p) && quantity > 0 && PriceQuoted(p) {
      var d, f, units := p.decision, p.fills, UnitsAt(p.decision, quantity);
      var move := if p.spec.side.Buying? then price - d.mid else d.mid - price;
      QuotedCost(d, units, move);
      SignedMove(p.spec, d.contract.multiplier, units, d.mid, price);
      AgainstAdds(Leverage(p), f.units, f.unitsPrice, units, price, d.mid);
      UnitsAdd(d, f.quantity, quantity);
    }
  }

  lemma FinishIsCosted(p: Parent, ts: nat, mid: real)
    requires Valid(p) && Costed(p)
    ensures Costed(Finished(p, ts, mid))
  {
    var left := p.spec.quantity - p.fills.quantity;
    if Working(p) && PriceQuoted(p) && left > 0 && mid > 0.0 {
      var d, units := p.decision, UnitsAt(p.decision, left);
      QuotedCost(d, units, if p.spec.side.Buying? then mid - d.mid else d.mid - mid);
      SignedMove(p.spec, d.contract.multiplier, units, d.mid, mid);
    }
  }

  lemma StartIsCosted(p: Parent, ts: nat, mid: real, contract: Contract, scale: nat)
    requires Valid(p) && Costed(p)
    ensures Costed(Started(p, ts, mid, contract, scale))
  {
    var q := Started(p, ts, mid, contract, scale);
    if !p.started && q.started {
      assert Against(Leverage(q), 0.0, 0.0, mid) == 0.0;
    }
  }

  lemma {:induction false} RunIsCosted(spec: ParentSpec, events: seq<Event>)
    requires OnSide(spec, events)
    ensures Costed(Run(spec, events))
  {
    if events != [] {
      var before, e := events[..|events| - 1], events[|events| - 1];
      RunIsCosted(spec, before);
      var p := Run(spec, before);
      match e
      case Start(ts, mid, contract, scale) => StartIsCosted(p, ts, mid, contract, scale);
      case Observe(ts, mid) =>
      case Child =>
      case Fill(side, price, quantity, fee, role) =>
        if p.started {
          FillIsCosted(p, price, quantity, fee, role);
        }
      case Finish(ts, mid) => FinishIsCosted(p, ts, mid);
    }
  }

  // ------------------------------------------------------------------------------------- the identity

  lemma QuotedTerms(p: Parent, twap: real)
    requires Valid(p) && PriceQuoted(p) && twap > 0.0
    ensures FilledVsTwapUsd(p, twap) == Against(Leverage(p), p.fills.units, p.fills.unitsPrice, twap)
    ensures OpportunityVsTwapUsd(p, twap) == Charge(Leverage(p), TotalUnits(p) - p.fills.units, p.horizonMid - twap)
  {
    var m, s := p.decision.contract.multiplier, p.spec.Sign();
    var x := p.fills.unitsPrice - twap * p.fills.units;
    assert (twap * m) * s * x == (s * m * x) * twap;
    QuotientIs((twap * m) * s * x, twap, s * m * x);
    var left, move := TotalUnits(p) - p.fills.units, p.horizonMid - twap;
    assert left * (twap * m) * s * move == (s * m * (left * move)) * twap;
    QuotientIs(left * (twap * m) * s * move, twap, s * m * (left * move));
  }

  // Against both benchmarks the filled and the missed quantity are the whole order.
  lemma BenchmarkAlgebra(k: real, units: real, unitsPrice: real, left: real, total: real, d: real, t: real, h: real)
    requires total == units + left
    ensures Against(k, units, unitsPrice, d) + Charge(k, left, h - d)
          - (Against(k, units, unitsPrice, t) + Charge(k, left, h - t)) == Charge(k, total, t - d)
  {
    var a, b := (unitsPrice - d * units) + left * (h - d), (unitsPrice - t * units) + left * (h - t);
    Distribute(k, unitsPrice - d * units, left * (h - d));
    Distribute(k, unitsPrice - t * units, left * (h - t));
    assert a - b == total * (t - d);
    Distribute(k, a, -b);
  }

  lemma LeftUnits(p: Parent)
    requires Valid(p) && p.started && p.fills.units == UnitsAt(p.decision, p.fills.quantity)
    ensures p.fills.quantity <= p.spec.quantity ==>
              TotalUnits(p) - p.fills.units == UnitsAt(p.decision, p.spec.quantity - p.fills.quantity)
    ensures TotalUnits(p) == p.fills.units <==> p.spec.quantity == p.fills.quantity
  {
    var n := p.decision.scale as real;
    assert UnitsAt(p.decision, p.spec.quantity) * n == p.spec.quantity as real;
    assert UnitsAt(p.decision, p.fills.quantity) * n == p.fills.quantity as real;
    if p.fills.quantity <= p.spec.quantity {
      UnitsAdd(p.decision, p.fills.quantity, p.spec.quantity - p.fills.quantity);
    }
  }

  // What the identity needs charged for the missed quantity; the code's figure may differ from it.
  function DueCharge(p: Parent): real
    requires Valid(p)
  {
    Charge(Leverage(p), TotalUnits(p) - p.fills.units, p.horizonMid - p.decision.mid)
  }

  // The schedule-free difference between the two benchmarks.
  function DriftUsd(p: Parent, twap: real): real
    requires Valid(p)
  {
    Charge(Leverage(p), TotalUnits(p), twap - p.decision.mid)
  }

  lemma IdentityUpToGap(p: Parent, twap: real)
    requires Valid(p) && Costed(p) && p.started && PriceQuoted(p) && twap > 0.0
    ensures ArrivalUsd(p) - TwapUsd(p, twap) == DriftUsd(p, twap) + p.opportunityUsd - DueCharge(p)
  {
    QuotedTerms(p, twap);
    var left := TotalUnits(p) - p.fills.units;
    BenchmarkAlgebra(Leverage(p), p.fills.units, p.fills.unitsPrice, left, TotalUnits(p), p.decision.mid, twap,
                     p.horizonMid);
  }

  // The quantity that never filled is charged at the horizon exactly when there is a price to charge it at.
  predicate Charged(p: Parent) {
    || p.fills.quantity == p.spec.quantity
    || (p.fills.quantity < p.spec.quantity && p.horizonMid > 0.0)
    || p.horizonMid == p.decision.mid
  }

  lemma GapVanishes(p: Parent)
    requires Valid(p) && Costed(p) && p.finished && PriceQuoted(p) && p.decision.contract.multiplier != 0.0
    ensures p.opportunityUsd == DueCharge(p) <==> Charged(p)
  {
    LeftUnits(p);
    if p.fills.quantity >= p.spec.quantity || p.horizonMid <= 0.0 {
      assert p.opportunityUsd == 0.0;
      ProductVanishes(p.spec.Sign(), p.decision.contract.multiplier, TotalUnits(p) - p.fills.units,
                      p.horizonMid - p.decision.mid);
    }
  }

  lemma ProductVanishes(sign: real, m: real, left: real, move: real)
    requires sign == 1.0 || sign == -1.0
    requires m != 0.0
    ensures Charge(sign * m, left, move) == 0.0 <==> left == 0.0 || move == 0.0
  {
    var x := left * move;
    if left != 0.0 && move != 0.0 {
      SquareSign(left, left * left);
      SquareSign(move, move * move);
      SquareSign(m, m * m);
      PositiveProduct(left * left, move * move);
      PositiveProduct(m * m, left * left * (move * move));
      assert (m * x) * (m * x) == m * m * (left * left * (move * move));
      assert m * x != 0.0;
    }
  }

  // The dollar shortfall against arrival less the one against the time-weighted middle is the parent's
  // sign times the multiplier, its quantity, and how far the middle drifted from the decision: the
  // schedule drops out. For a finished parent whose fills are on its side, on a price-quoted instrument,
  // that holds exactly when the missing quantity was charged: it filled to the unit, or it filled less and
  // the horizon had a price, or that price is the decision's.
  lemma ShortfallIdentity(spec: ParentSpec, events: seq<Event>)
    requires OnSide(spec, events) && Run(spec, events).finished && PriceQuoted(Run(spec, events))
    requires Run(spec, events).decision.contract.multiplier != 0.0
    ensures
      var p := Run(spec, events);
      var twap := Twap(p);
      twap > 0.0 && (ArrivalUsd(p) - TwapUsd(p, twap) == DriftUsd(p, twap) <==> Charged(p))
  {
    var p := Run(spec, events);
    TwapIsPositive(spec, events);
    RunIsCosted(spec, events);
    GapVanishes(p);
    IdentityUpToGap(p, Twap(p));
  }

  // ------------------------------------------------------------------------------------------ the class

  // A column of the report: its terms and their sum, in basis points.
  datatype Column = Column(filled: real, fees: real, opportunity: real, total: real)

  datatype Summary = Summary(
    requested: bool,
    complete: bool,
    buy: bool,
    quantity: nat,
    filledQuantity: nat,
    childOrders: nat,
    decisionMid: real,
    horizonMid: real,
    spanSeconds: real,
    filledRatio: real,
    arrival: Column,
    makerShare: real,
    makerFeesBps: real,
    takerFeesBps: real,
    twapMid: real,
    versusTwap: Column)

  // The value of the whole parent at a price: what its basis points are taken of.
  function ValueAt(p: Parent, price: real): real
    requires Valid(p)
  {
    TotalUnits(p) * UnitNotionalAt(p.decision.contract, price)
  }

  function Scaled(x: real, base: real): real {
    x * base
  }

  // `x` is what part `amount` is of `base`, and zero without a base.
  ghost predicate IsPart(x: real, amount: real, base: real) {
    if base > 0.0 then Scaled(x, base) == amount else x == 0.0
  }

  // `x` is the amount in basis points of `base`.
  ghost predicate InBps(x: real, usd: real, base: real) {
    IsPart(x, 10000.0 * usd, base)
  }

  ghost predicate ColumnIs(c: Column, filled: real, fees: real, opportunity: real, base: real) {
    && InBps(c.filled, filled, base) && InBps(c.fees, fees, base) && InBps(c.opportunity, opportunity, base)
    && InBps(c.total, filled + fees + opportunity, base) && c.total == c.filled + c.fees + c.opportunity
  }

  lemma PartsAdd(x: real, y: real, a: real, b: real, base: real)
    requires InBps(x, a, base) && InBps(y, b, base)
    ensures InBps(x + y, a + b, base)
  {
    assert Scaled(x + y, base) == Scaled(x, base) + Scaled(y, base);
  }

  lemma ColumnAdds(c: Column, filled: real, fees: real, opportunity: real, base: real)
    requires InBps(c.filled, filled, base) && InBps(c.fees, fees, base) && InBps(c.opportunity, opportunity, base)
    requires c.total == c.filled + c.fees + c.opportunity
    ensures ColumnIs(c, filled, fees, opportunity, base)
  {
    PartsAdd(c.filled, c.fees, filled, fees, base);
    PartsAdd(c.filled + c.fees, c.opportunity, filled + fees, opportunity, base);
  }

  lemma PartOf(amount: real, base: real)
    requires base > 0.0
    ensures Scaled(amount / base, base) == amount
  {
  }

  lemma PerBpOf(usd: real, base: real)
    requires base > 0.0
    ensures Scaled(usd * (10000.0 / base), base) == 10000.0 * usd
    ensures Scaled(usd / base * 10000.0, base) == 10000.0 * usd
  {
    var perBp, share := 10000.0 / base, usd / base;
    assert perBp * base == 10000.0 && share * base == usd;
    assert usd * perBp * base == usd * (perBp * base);
    assert share * 10000.0 * base == share * base * 10000.0;
  }

  // The fees of the fills whose role the venue did not report.
  function UnreportedFees(spec: ParentSpec, events: seq<Event>): real {
    if events == [] then 0.0
    else
      var before, e := events[..|events| - 1], events[|events| - 1];
      UnreportedFees(spec, before) +
        if e.Fill? && e.role.UnknownRole? && e.quantity > 0 && Working(Run(spec, before)) then e.fee else 0.0
  }

  ghost predicate Mixed(f: Fills, unreported: real) {
    f.fees == f.makerFees + f.takerFees + unreported && 0.0 <= f.makerUnits <= f.units
  }

  lemma UnitsAreNotNegative(d: Decision, quantity: nat)
    requires d.scale > 0
    ensures UnitsAt(d, quantity) >= 0.0
  {
  }

  // Every fee is the maker's, the taker's or unreported, and the resting units are among the filled ones. So
  // the two fee columns add up to the fee term, as src/app/run_summary.h:275-279 says, if and only if the
  // unreported fees cancel out.
  lemma {:induction false} RolesSplitFees(spec: ParentSpec, events: seq<Event>)
    ensures Mixed(Run(spec, events).fills, UnreportedFees(spec, events))
  {
    if events != [] {
      var before, e := events[..|events| - 1], events[|events| - 1];
      RolesSplitFees(spec, before);
      var p := Run(spec, before);
      if e.Fill? && Working(p) && e.quantity > 0 {
        UnitsAreNotNegative(p.decision, e.quantity);
      }
    }
  }

  lemma FeeColumnsAddUp(spec: ParentSpec, events: seq<Event>, s: Summary, base: real)
    requires base > 0.0
    requires
      var f := Run(spec, events).fills;
      && InBps(s.arrival.fees, f.fees, base)
      && InBps(s.makerFeesBps, f.makerFees, base) && InBps(s.takerFeesBps, f.takerFees, base)
      && IsPart(s.makerShare, f.makerUnits, f.units)
    ensures s.arrival.fees == s.makerFeesBps + s.takerFeesBps <==> UnreportedFees(spec, events) == 0.0
    ensures 0.0 <= s.makerShare <= 1.0
  {
    var f := Run(spec, events).fills;
    RolesSplitFees(spec, events);
    FeesAddUp(s.arrival.fees, s.makerFeesBps, s.takerFeesBps, f.fees, f.makerFees, f.takerFees, base);
    if f.units > 0.0 {
      ShareInRange(s.makerShare, f.makerUnits, f.units);
    }
  }

  lemma FeesAddUp(fees: real, maker: real, taker: real, feesUsd: real, makerUsd: real, takerUsd: real, base: real)
    requires base > 0.0 && InBps(fees, feesUsd, base) && InBps(maker, makerUsd, base) && InBps(taker, takerUsd, base)
    ensures fees == maker + taker <==> feesUsd == makerUsd + takerUsd
  {
    PartsAdd(maker, taker, makerUsd, takerUsd, base);
    SamePart(fees, maker + taker, base);
  }

  lemma SamePart(x: real, y: real, base: real)
    requires base > 0.0
    ensures Scaled(x, base) == Scaled(y, base) <==> x == y
  {
    if Scaled(x, base) == Scaled(y, base) {
      CancelRight(x, y, base);
    }
  }

  lemma ShareInRange(x: real, amount: real, base: real)
    requires base > 0.0 && 0.0 <= amount <= base && Scaled(x, base) == amount
    ensures 0.0 <= x <= 1.0
  {
    SignOfFactor(x, base);
    SignOfFactor(1.0 - x, base);
  }

  class ParentOrder {
    var spec: ParentSpec
    var started: bool
    var finished: bool
    var startTs: nat
    var decisionMid: real
    var decisionUsd: real
    var contract: Contract
    var scale: nat
    var twapArea: real
    var twapTimeUs: nat
    var lastMidTs: nat
    var lastMid: real
    var fills: Fills
    var children: nat
    var horizonMid: real
    var opportunityUsd: real
    var span: nat

    function State(): Parent
      reads this
    {
      Parent(spec, started, finished, Decision(startTs, decisionMid, contract, scale),
             Benchmark(twapArea, twapTimeUs, lastMidTs, lastMid), fills, children, horizonMid, opportunityUsd, span)
    }

    constructor (spec: ParentSpec)
      ensures State() == Fresh(spec) && Valid(State())
    {
      this.spec := spec;
      started, finished, startTs, decisionMid, decisionUsd := false, false, 0, 0.0, 0.0;
      contract, scale := Contract(0.0, 1.0), 1;
      twapArea, twapTimeUs, lastMidTs, lastMid := 0.0, 0, 0, 0.0;
      fills, children, horizonMid, opportunityUsd, span := NO_FILLS, 0, 0.0, 0.0, 0;
    }

    method StartParent(ts: nat, mid: real, contract: Contract, scale: nat)
      requires Valid(State())
      modifies this
      ensures State() == Step(old(State()), Start(ts, mid, contract, scale))
      ensures started && !old(started) ==> decisionUsd == ValueAt(State(), mid)
    {
      if !spec.Requested() || started || mid <= 0.0 {
        return;
      }
      started := true;
      startTs := ts;
      decisionMid := mid;
      this.contract := contract;
      this.scale := MaxInt(1, scale);
      var units := spec.quantity as real / this.scale as real;
      decisionUsd := units * UnitNotionalAt(contract, mid);
      lastMidTs := ts;
      lastMid := mid;
    }

    // The segment since the last observation, at the given middle.
    method CloseSegment(ts: nat, mid: real)
      modifies this`twapArea, this`twapTimeUs
      ensures
        var b := Advance(Benchmark(old(twapArea), old(twapTimeUs), lastMidTs, lastMid), ts, mid);
        twapArea == b.area && twapTimeUs == b.time
    {
      if ts > lastMidTs {
        twapArea := twapArea + Held(mid, ts - lastMidTs);
        twapTimeUs := twapTimeUs + (ts - lastMidTs);
      }
    }

    method ObserveParentMid(ts: nat, mid: real)
      requires Valid(State())
      modifies this`twapArea, this`twapTimeUs, this`lastMidTs, this`lastMid
      ensures State() == Step(old(State()), Observe(ts, mid))
    {
      if !started || finished || mid <= 0.0 {
        return;
      }
      CloseSegment(ts, lastMid);
      lastMidTs := ts;
      lastMid := mid;
    }

    method NoteParentChild()
      requires Valid(State())
      modifies this`children
      ensures State() == Step(old(State()), Child)
    {
      if !started || finished {
        return;
      }
      children := children + 1;
    }

    method NoteParentFill(side: Side, price: real, quantity: nat, fee: real, role: LiquidityRole)
      requires Valid(State())
      modifies this`fills
      ensures State() == Step(old(State()), Fill(side, price, quantity, fee, role))
    {
      if !started || finished || quantity == 0 {
        return;
      }
      var d := Decision(startTs, decisionMid, contract, scale);
      var units := UnitsAt(d, quantity);
      var f := fills.(quantity := fills.quantity + quantity, fees := fills.fees + fee, units := fills.units + units,
                      unitsPrice := fills.unitsPrice + units * price);
      if role.Maker? {
        f := f.(makerUnits := f.makerUnits + units, makerFees := f.makerFees + fee);
      } else if role.Taker? {
        f := f.(takerFees := f.takerFees + fee);
      }
      var move := if side.Buy? then price - decisionMid else decisionMid - price;
      fills := f.(usd := f.usd + MoveCost(d, units, move));
    }

    method FinishParent(ts: nat, mid: real)
      requires Valid(State())
      modifies this`twapArea, this`twapTimeUs, this`finished, this`horizonMid, this`span, this`opportunityUsd
      ensures State() == Step(old(State()), Finish(ts, mid))
    {
      if !started || finished {
        return;
      }
      CloseSegment(ts, if mid > 0.0 then mid else lastMid);
      finished := true;
      horizonMid := mid;
      span := if ts > startTs then ts - startTs else 0;
      var unfilled := spec.quantity - fills.quantity;
      if unfilled <= 0 || mid <= 0.0 {
        return;
      }
      var d := Decision(startTs, decisionMid, contract, scale);
      var move := if spec.side.Buying? then mid - decisionMid else decisionMid - mid;
      opportunityUsd := opportunityUsd + MoveCost(d, UnitsAt(d, unfilled), move);
    }

    // The report. Its two columns are in basis points of the parent's value at the decision and at the
    // benchmark: every figure is the part it stands for, and each column is the sum of its terms.
    method ParentSummary() returns (s: Summary)
      requires Valid(State())
      ensures s.requested == spec.Requested() && s.complete == finished && s.buy == spec.side.Buying?
      ensures s.quantity == spec.quantity && s.filledQuantity == fills.quantity && s.childOrders == children
      ensures s.decisionMid == decisionMid && s.horizonMid == horizonMid
      ensures s.spanSeconds == span as real / MaxInt(1, spec.ticksPerSecond) as real
      ensures IsPart(s.filledRatio, fills.quantity as real, spec.quantity as real)
      ensures IsPart(s.makerShare, fills.makerUnits, fills.units)
      ensures ColumnIs(s.arrival, fills.usd, fills.fees, opportunityUsd, decisionUsd)
      ensures InBps(s.makerFeesBps, fills.makerFees, decisionUsd) && InBps(s.takerFeesBps, fills.takerFees, decisionUsd)
      ensures s.twapMid == Twap(State())
      ensures TwapColumn(s.versusTwap, s.twapMid)
    {
      var ratio := PartFigure(fills.quantity as real, spec.quantity as real);
      var share := PartFigure(fills.makerUnits, fills.units);
      var perBp := if decisionUsd > 0.0 then 10000.0 / decisionUsd else 0.0;
      var arrival := ArrivalColumn(perBp);
      var maker := BpsFigure(fills.makerFees, perBp, decisionUsd);
      var taker := BpsFigure(fills.takerFees, perBp, decisionUsd);
      var twap := TwapMid();
      var versus := VersusTwap(twap);
      s := Summary(spec.Requested(), finished, spec.side.Buying?, spec.quantity, fills.quantity, children, decisionMid,
                   horizonMid, span as real / MaxInt(1, spec.ticksPerSecond) as real, ratio, arrival, share, maker, taker,
                   twap, versus);
    }

    // The column against the benchmark; without one, or without a value at it, all its figures are zero.
    ghost predicate TwapColumn(c: Column, twap: real)
      requires Valid(State())
      reads this
    {
      if spec.Requested() && twap > 0.0
      then ColumnIs(c, FilledVsTwapUsd(State(), twap), fills.fees, OpportunityVsTwapUsd(State(), twap),
                    ValueAt(State(), twap))
      else c == Column(0.0, 0.0, 0.0, 0.0)
    }

    static method PartFigure(amount: real, base: real) returns (x: real)
      ensures IsPart(x, amount, base)
    {
      x := if base > 0.0 then amount / base else 0.0;
      if base > 0.0 {
        PartOf(amount, base);
      }
    }

    static method BpsFigure(usd: real, perBp: real, base: real) returns (x: real)
      requires perBp == if base > 0.0 then 10000.0 / base else 0.0
      ensures InBps(x, usd, base)
    {
      x := usd * perBp;
      if base > 0.0 {
        PerBpOf(usd, base);
      }
    }

    method TwapMid() returns (mid: real)
      ensures mid == Twap(State())
    {
      mid := if twapTimeUs > 0 then twapArea / twapTimeUs as real else decisionMid;
    }

    method ArrivalColumn(perBp: real) returns (c: Column)
      requires perBp == if decisionUsd > 0.0 then 10000.0 / decisionUsd else 0.0
      ensures ColumnIs(c, fills.usd, fills.fees, opportunityUsd, decisionUsd)
    {
      var filled := BpsFigure(fills.usd, perBp, decisionUsd);
      var fees := BpsFigure(fills.fees, perBp, decisionUsd);
      var missed := BpsFigure(opportunityUsd, perBp, decisionUsd);
      c := Column(filled, fees, missed, filled + fees + missed);
      ColumnAdds(c, fills.usd, fills.fees, opportunityUsd, decisionUsd);
    }

    // The two dollar terms against the benchmark.
    method TwapDollars(twap: real) returns (filled: real, missed: real)
      requires Valid(State()) && twap > 0.0
      ensures filled == FilledVsTwapUsd(State(), twap) && missed == OpportunityVsTwapUsd(State(), twap)
    {
      var sign := if spec.side.Buying? then 1.0 else -1.0;
      var totalUnits := spec.quantity as real / scale as real;
      var unitValue := UnitNotionalAt(contract, twap);
      filled := unitValue * sign * (fills.unitsPrice - twap * fills.units) / twap;
      missed := (totalUnits - fills.units) * unitValue * sign * (horizonMid - twap) / twap;
    }

    method VersusTwap(twap: real) returns (c: Column)
      requires Valid(State())
      ensures TwapColumn(c, twap)
    {
      c := Column(0.0, 0.0, 0.0, 0.0);
      if spec.Requested() && twap > 0.0 {
        var denominator := ValueAt(State(), twap);
        var filled, missed := TwapDollars(twap);
        if denominator > 0.0 {
          c := TwapTerms(filled, missed, fills.fees, denominator);
        }
      }
    }

    static method TwapTerms(filled: real, missed: real, fees: real, base: real) returns (c: Column)
      requires base > 0.0
      ensures ColumnIs(c, filled, fees, missed, base)
    {
      var a, b := filled / base * 10000.0, missed / base * 10000.0;
      var f := fees / base * 10000.0;
      c := Column(a, f, b, a + b + f);
      PerBpOf(filled, base);
      PerBpOf(missed, base);
      PerBpOf(fees, base);
      ColumnAdds(c, filled, fees, missed, base);
    }
  }
}

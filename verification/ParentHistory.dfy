// A parent order's benchmark and fills read off the events alone (src/app/run_accounting.cpp:348-453): the
// middles of its window and how long each held, and what was filled and paid in it.
module ParentHistory {
  import opened Exchange
  import opened InstrumentSpec
  import opened Options
  import opened Reals
  import opened ParentOrder
  import P = ParentOrder

  // A middle and when it was seen.
  datatype Seen = Seen(ts: nat, mid: real)

  // The middles of the window: the decision, and what was seen from then until the parent finished.
  function Window(spec: ParentSpec, events: seq<Event>): seq<Seen> {
    if events == [] then []
    else
      var before, e := events[..|events| - 1], events[|events| - 1];
      var w := Window(spec, before);
      if Closing(spec, before).Some? then w
      else
        match e
        case Start(ts, mid, contract, scale) =>
          if w == [] && spec.side != Unknown && spec.quantity > 0 && spec.horizonUs > 0 && mid > 0.0 then [Seen(ts, mid)]
          else w
        case Observe(ts, mid) => if w != [] && mid > 0.0 then w + [Seen(ts, mid)] else w
        case _ => w
  }

  // When the parent finished, and the middle its last stretch is taken at: the one at the end, or the last one
  // seen when there is none.
  function Closing(spec: ParentSpec, events: seq<Event>): Option<Seen> {
    if events == [] then None
    else
      var before, e := events[..|events| - 1], events[|events| - 1];
      var w, c := Window(spec, before), Closing(spec, before);
      if c.None? && e.Finish? && w != [] then Some(Seen(e.ts, if e.mid > 0.0 then e.mid else w[|w| - 1].mid)) else c
  }

  // A clock that does not advance takes no time.
  function Elapsed(from: nat, to: nat): nat {
    if to > from then to - from else 0
  }

  // A middle times how long it held.
  function Stretch(mid: real, time: nat): real {
    mid * time as real
  }

  // Each middle times how long it held until the next.
  function Weighted(w: seq<Seen>): real {
    if |w| < 2 then 0.0
    else
      var last, previous := w[|w| - 1], w[|w| - 2];
      Weighted(w[..|w| - 1]) + Stretch(previous.mid, Elapsed(previous.ts, last.ts))
  }

  function Covered(w: seq<Seen>): nat {
    if |w| < 2 then 0 else Covered(w[..|w| - 1]) + Elapsed(w[|w| - 2].ts, w[|w| - 1].ts)
  }

  function WeightedTo(w: seq<Seen>, end: Seen): real
    requires w != []
  {
    Weighted(w) + Stretch(end.mid, Elapsed(w[|w| - 1].ts, end.ts))
  }

  function CoveredTo(w: seq<Seen>, end: Seen): nat
    requires w != []
  {
    Covered(w) + Elapsed(w[|w| - 1].ts, end.ts)
  }

  ghost predicate IsHeld(p: Parent, w: seq<Seen>, c: Option<Seen>) {
    && (p.started <==> w != []) && (p.finished <==> c.Some?) && (c.Some? ==> w != [])
    && (w != [] ==> p.decision.ts == w[0].ts && p.decision.mid == w[0].mid)
    && (w == [] ==> p.benchmark == Benchmark(0.0, 0, 0, 0.0))
    && (w != [] && c.None? ==>
          p.benchmark == Benchmark(Weighted(w), Covered(w), w[|w| - 1].ts, w[|w| - 1].mid))
    && (w != [] && c.Some? ==>
          && p.benchmark.area == WeightedTo(w, c.value) && p.benchmark.time == CoveredTo(w, c.value)
          && p.span == Elapsed(w[0].ts, c.value.ts))
  }

  lemma OneMoreSeen(w: seq<Seen>, s: Seen)
    requires w != []
    ensures
      var last := w[|w| - 1];
      && Weighted(w + [s]) == Weighted(w) + Stretch(last.mid, Elapsed(last.ts, s.ts))
      && Covered(w + [s]) == Covered(w) + Elapsed(last.ts, s.ts)
  {
    assert (w + [s])[..|w|] == w;
  }

  lemma AdvanceIs(b: Benchmark, ts: nat, mid: real)
    ensures Advance(b, ts, mid).area == b.area + Stretch(mid, Elapsed(b.lastTs, ts))
    ensures Advance(b, ts, mid).time == b.time + Elapsed(b.lastTs, ts)
  {
  }

  lemma ObserveKeepsHeld(p: Parent, w: seq<Seen>, ts: nat, mid: real)
    requires IsHeld(p, w, None) && w != [] && mid > 0.0
    ensures IsHeld(Observed(p, ts, mid), w + [Seen(ts, mid)], None)
  {
    AdvanceIs(p.benchmark, ts, p.benchmark.lastMid);
    OneMoreSeen(w, Seen(ts, mid));
  }

  lemma FinishKeepsHeld(p: Parent, w: seq<Seen>, ts: nat, mid: real)
    requires Valid(p) && IsHeld(p, w, None) && w != []
    ensures IsHeld(Finished(p, ts, mid), w, Some(Seen(ts, if mid > 0.0 then mid else w[|w| - 1].mid)))
  {
    AdvanceIs(p.benchmark, ts, if mid > 0.0 then mid else p.benchmark.lastMid);
  }

  lemma {:induction false} WindowIsHeld(spec: ParentSpec, events: seq<Event>)
    ensures IsHeld(Run(spec, events), Window(spec, events), Closing(spec, events))
  {
    if events != [] {
      var before, e := events[..|events| - 1], events[|events| - 1];
      WindowIsHeld(spec, before);
      var p, w := Run(spec, before), Window(spec, before);
      if w != [] && Closing(spec, before).None? {
        if e.Observe? && e.mid > 0.0 {
          ObserveKeepsHeld(p, w, e.ts, e.mid);
        } else if e.Finish? {
          FinishKeepsHeld(p, w, e.ts, e.mid);
        }
      }
    }
  }

  // Every stretch of the window, and the time they cover: up to the end once the parent has finished.
  function AllWeighted(w: seq<Seen>, c: Option<Seen>): real
    requires w != []
  {
    if c.Some? then WeightedTo(w, c.value) else Weighted(w)
  }

  function AllCovered(w: seq<Seen>, c: Option<Seen>): nat
    requires w != []
  {
    if c.Some? then CoveredTo(w, c.value) else Covered(w)
  }

  // The benchmark is the mean of the middles weighted by how long each held, for any clock; a window that
  // covers no time has the decision's.
  lemma TwapIsTimeWeighted(spec: ParentSpec, events: seq<Event>)
    requires Run(spec, events).started
    ensures
      var p, w, c := Run(spec, events), Window(spec, events), Closing(spec, events);
      && w != [] && p.benchmark.time == AllCovered(w, c)
      && (AllCovered(w, c) > 0 ==> Stretch(Twap(p), AllCovered(w, c)) == AllWeighted(w, c))
      && (AllCovered(w, c) == 0 ==> Twap(p) == w[0].mid)
  {
    WindowIsHeld(spec, events);
    MeanTimesTime(Run(spec, events));
  }

  lemma MeanTimesTime(p: Parent)
    ensures p.benchmark.time > 0 ==> Stretch(Twap(p), p.benchmark.time) == p.benchmark.area
  {
  }

  ghost predicate InOrder(w: seq<Seen>) {
    forall i, j :: 0 <= i <= j < |w| ==> w[i].ts <= w[j].ts
  }

  lemma {:induction false} CoveredInOrder(w: seq<Seen>)
    requires w != [] && InOrder(w)
    ensures Covered(w) == w[|w| - 1].ts - w[0].ts
  {
    if |w| > 1 {
      CoveredInOrder(w[..|w| - 1]);
    }
  }

  // On a clock that does not go back a finished parent's benchmark covers exactly the time from its decision to
  // its end, which is the span that is reported.
  lemma FinishedCoversItsSpan(spec: ParentSpec, events: seq<Event>)
    requires Run(spec, events).finished && InOrder(Window(spec, events))
    requires
      var w, c := Window(spec, events), Closing(spec, events);
      w != [] && c.Some? ==> w[|w| - 1].ts <= c.value.ts
    ensures
      var p, w, c := Run(spec, events), Window(spec, events), Closing(spec, events);
      w != [] && c.Some? && p.benchmark.time == p.span == c.value.ts - w[0].ts
  {
    WindowIsHeld(spec, events);
    CoveredInOrder(Window(spec, events));
  }

  // ------------------------------------------------------------------------------------------- the fills

  // A Trade of the window: after the decision and before the end, and not empty.
  ghost predicate InWindow(spec: ParentSpec, before: seq<Event>, e: Event) {
    e.Fill? && e.quantity > 0 && Window(spec, before) != [] && Closing(spec, before).None?
  }

  datatype Totals = Totals(
    quantity: nat,
    priced: real,
    fees: real,
    makerQuantity: nat,
    makerFees: real,
    takerFees: real,
    children: nat)

  // A quantity at a price.
  function Priced(quantity: nat, price: real): real {
    quantity as real * price
  }

  function Plus(t: Totals, quantity: nat, price: real, fee: real, role: LiquidityRole): Totals {
    Totals(t.quantity + quantity, t.priced + Priced(quantity, price), t.fees + fee,
           t.makerQuantity + (if role == Maker then quantity else 0),
           t.makerFees + (if role == Maker then fee else 0.0),
           t.takerFees + (if role == Taker then fee else 0.0), t.children)
  }

  ghost function Totalled(spec: ParentSpec, events: seq<Event>): Totals {
    if events == [] then Totals(0, 0.0, 0.0, 0, 0.0, 0.0, 0)
    else
      var before, e := events[..|events| - 1], events[|events| - 1];
      var t := Totalled(spec, before);
      if InWindow(spec, before, e) then Plus(t, e.quantity, e.price, e.fee, e.role)
      else if e.Child? && Window(spec, before) != [] && Closing(spec, before).None?
      then t.(children := t.children + 1)
      else t
  }

  // The running sums in raw quantities: the scale is how many make a unit.
  ghost predicate SumsAre(p: Parent, t: Totals) {
    var f, n := p.fills, p.decision.scale as real;
    && f.quantity == t.quantity && f.fees == t.fees && f.makerFees == t.makerFees && f.takerFees == t.takerFees
    && p.children == t.children
    && (p.started ==>
          f.units * n == t.quantity as real && f.unitsPrice * n == t.priced && f.makerUnits * n == t.makerQuantity as real)
    && (!p.started ==> f == NO_FILLS && t == Totals(0, 0.0, 0.0, 0, 0.0, 0.0, 0))
  }

  lemma FillAdds(units: real, unitsPrice: real, n: real, quantity: nat, price: real, more: real)
    requires n > 0.0 && more == quantity as real / n
    ensures (units + more) * n == units * n + quantity as real
    ensures (unitsPrice + more * price) * n == unitsPrice * n + Priced(quantity, price)
  {
    assert more * n == quantity as real;
    assert more * price * n == more * n * price;
  }

  lemma FillKeepsSums(p: Parent, t: Totals, side: Side, price: real, quantity: nat, fee: real, role: LiquidityRole)
    requires Valid(p) && SumsAre(p, t) && p.started && !p.finished && quantity > 0
    ensures SumsAre(P.Filled(p, side, price, quantity, fee, role), Plus(t, quantity, price, fee, role))
  {
    var f, n := p.fills, p.decision.scale as real;
    FillAdds(f.units, f.unitsPrice, n, quantity, price, UnitsAt(p.decision, quantity));
    FillAdds(f.makerUnits, 0.0, n, quantity, price, UnitsAt(p.decision, quantity));
    assert (t.quantity + quantity) as real == t.quantity as real + quantity as real;
    assert (t.makerQuantity + quantity) as real == t.makerQuantity as real + quantity as real;
  }

  lemma OtherKeepsSums(p: Parent, t: Totals, e: Event)
    requires Valid(p) && SumsAre(p, t) && (e.Fill? ==> e.quantity == 0 || !p.started || p.finished)
    ensures SumsAre(Step(p, e), if e.Child? && p.started && !p.finished then t.(children := t.children + 1) else t)
  {
  }

  // After any run the sums are those of the fills between the decision and the end, by role, and the children
  // are those sent in it.
  lemma {:induction false} FillsAreHistory(spec: ParentSpec, events: seq<Event>)
    ensures SumsAre(Run(spec, events), Totalled(spec, events))
  {
    if events != [] {
      var before, e := events[..|events| - 1], events[|events| - 1];
      FillsAreHistory(spec, before);
      WindowIsHeld(spec, before);
      var p := Run(spec, before);
      if InWindow(spec, before, e) {
        FillKeepsSums(p, Totalled(spec, before), e.side, e.price, e.quantity, e.fee, e.role);
      } else {
        OtherKeepsSums(p, Totalled(spec, before), e);
      }
    }
  }

  // What a move costs: for each unit the multiplier times the move, or the face times the move over the
  // decision's middle.
  lemma MoveCostIs(d: Decision, quantity: nat, move: real)
    requires d.mid > 0.0 && d.scale > 0
    ensures UnitsAt(d, quantity) * d.scale as real == quantity as real
    ensures d.contract.unitNotionalUsd <= 0.0 ==>
              MoveCost(d, UnitsAt(d, quantity), move) == UnitsAt(d, quantity) * d.contract.multiplier * move
    ensures d.contract.unitNotionalUsd > 0.0 ==>
              MoveCost(d, UnitsAt(d, quantity), move) * d.mid == UnitsAt(d, quantity) * d.contract.unitNotionalUsd * move
  {
    var units := UnitsAt(d, quantity);
    if d.contract.unitNotionalUsd <= 0.0 {
      QuotedCost(d, units, move);
    }
  }
}

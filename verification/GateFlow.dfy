// The position gate, the reservations it makes, and the venue that works what it let through
// (src/app/pipeline.cpp:69-72, 94, 401-415, src/app/risk_pipeline.cpp, src/app/fill_accounting.cpp:83-99):
// the part of the pipeline that decides how far the position can go.
module GateFlow {
  import opened Exchange
  import opened InstrumentSpec
  import opened Options
  import opened RunSummary
  import opened Sums
  import opened RiskPipeline
  import opened FillAccounting

  datatype Config = Config(quantityScale: Scale, contract: Contract)

  // An order at the venue, with what is left of it.
  datatype Working = Working(side: Side, remaining: nat)

  datatype World = World(gate: Gate, holdings: Holdings, nextId: nat, working: map<nat, Working>)

  datatype Submission = Submission(order: Order, symbol: string, quote: Option<Quote>, nowSeconds: real, ts: nat,
                                   cycle: nat)

  // What reaches the pipeline. The gate and the reservations take no notice of the queues ahead of us at the
  // venue, of a request to cancel before its report, or of a look at the queues after a market event.
  datatype Event =
    | CycleStart(netPnl: real, ts: nat)
    | Submit(request: Submission, accepted: bool)
    | Report(report: ExecutionReport, cycle: nat, ahead: QueueAhead)
    | Cancel(id: nat, ahead: QueueAhead)
    | Sample(ahead: QueueAhead)

  function ContextOf(c: Config, h: Holdings, s: Submission): Context {
    Context(h.position, h.pendingBuy, h.pendingSell, c.quantityScale, c.contract, s.quote, s.nowSeconds)
  }

  function DecisionOn(c: Config, w: World, s: Submission): Decision {
    Decide(w.gate, s.order, ContextOf(c, w.holdings, s))
  }

  // The gate reserves what it lets through, when it is on.
  function Reserved(g: Gate, h: Holdings, o: Order): Holdings {
    if g.limits.positionLimit > 0 && o.quantity > 0 then Reserve(h, o.side, o.quantity) else h
  }

  // A refusal by the venue gives the reservation straight back.
  function HoldingsSubmitted(g: Gate, h: Holdings, o: Order, accepted: bool): Holdings {
    if accepted then Reserved(g, h, o) else Release(Reserved(g, h, o), o.side, o.quantity, false)
  }

  // A report's execution, then its remainder if it ends the order.
  function HoldingsReported(h: Holdings, r: ExecutionReport): Holdings {
    var filled := if r.Ours() && r.execType.Trade? then FillHoldings(h, r.side, r.Executed()) else h;
    if r.execType.Terminal() then Release(filled, AsIntent(r.side), r.Remaining(), true) else filled
  }

  // What the venue still works after a report.
  function WorkingReported(working: map<nat, Working>, r: ExecutionReport): map<nat, Working> {
    if r.orderId !in working then working
    else if r.execType.Terminal() then working - {r.orderId}
    else
      var o := working[r.orderId];
      working[r.orderId := o.(remaining := MaxInt(0, o.remaining - r.Executed()))]
  }

  function Step(c: Config, w: World, e: Event): World {
    match e
    case CycleStart(netPnl, ts) => w.(gate := AfterCycle(w.gate, netPnl, ts))
    case Submit(s, accepted) =>
      var checked := w.(gate := AfterCheck(w.gate, s.order, ContextOf(c, w.holdings, s)));
      if DecisionOn(c, w, s).Refused? then checked
      else
        checked.(holdings := HoldingsSubmitted(w.gate, w.holdings, s.order, accepted),
                 nextId := w.nextId + 1,
                 working := if accepted
                            then w.working[w.nextId := Working(s.order.side.AtVenue(), s.order.quantity)]
                            else w.working)
    case Report(r, cycle, ahead) =>
      w.(holdings := HoldingsReported(w.holdings, r), working := WorkingReported(w.working, r))
    case Cancel(id, ahead) => w
    case Sample(ahead) => w
  }

  // The contract with the venue: orders name a side, and a report is one that the venue may send.
  ghost predicate Honest(w: World, e: Event) {
    match e
    case CycleStart(netPnl, ts) => true
    case Submit(s, accepted) => !s.order.side.Unknown?
    case Report(r, cycle, ahead) => FromVenue(w.working, r)
    case _ => true
  }

  // A report of ours is about what is left of a working order, and a late one carries nothing. The others
  // are of the public orders that trade with ours (src/exchange/matching_engine.cpp:456-474): they name no
  // order of ours, and one that ends such an order leaves nothing of it, since it never rests.
  ghost predicate FromVenue(working: map<nat, Working>, r: ExecutionReport) {
    if !r.Ours() then r.orderId !in working && (r.execType.Terminal() ==> r.Remaining() == 0)
    else if r.orderId in working then AboutOrder(working[r.orderId], r)
    else r.quantity == 0
  }

  ghost predicate AboutOrder(o: Working, r: ExecutionReport) {
    && r.side == o.side
    && (r.execType.Trade? ==> 0 < r.quantity <= o.remaining)
    && (r.execType.Filled? ==> r.quantity == o.remaining == 0)
    && (r.execType.Cancelled? || r.execType.Rejected? ==> r.quantity == o.remaining)
  }

  function Start(limits: Limits): World {
    World(Fresh(limits), Holdings(0, 0, 0), 1, map[])
  }

  function Run(c: Config, limits: Limits, events: seq<Event>): World {
    if events == [] then Start(limits) else Step(c, Run(c, limits, events[..|events| - 1]), events[|events| - 1])
  }

  ghost predicate HonestRun(c: Config, limits: Limits, events: seq<Event>) {
    events != [] ==>
      var before := events[..|events| - 1];
      HonestRun(c, limits, before) && Honest(Run(c, limits, before), events[|events| - 1])
  }

  // ------------------------------------------------------------------------- what is left on each side

  function LeftOn(o: Working, side: Side): nat {
    if o.side == side then o.remaining else 0
  }

  function Lefts(working: map<nat, Working>, side: Side): map<nat, nat> {
    map id | id in working :: LeftOn(working[id], side)
  }

  // The unfilled remainders of the working orders of one side.
  ghost function Outstanding(working: map<nat, Working>, side: Side): nat {
    CountOf(Lefts(working, side))
  }

  lemma LeftsRemove(working: map<nat, Working>, side: Side, id: nat)
    ensures Lefts(working - {id}, side) == Lefts(working, side) - {id}
  {
  }

  lemma LeftsUpdate(working: map<nat, Working>, side: Side, id: nat, o: Working)
    ensures Lefts(working[id := o], side) == Lefts(working, side)[id := LeftOn(o, side)]
  {
  }

  lemma TakeOut(working: map<nat, Working>, side: Side, id: nat)
    requires id in working
    ensures Outstanding(working, side) == LeftOn(working[id], side) + Outstanding(working - {id}, side)
  {
    CountRemove(Lefts(working, side), id);
    LeftsRemove(working, side, id);
  }

  lemma PutIn(working: map<nat, Working>, side: Side, id: nat, o: Working)
    ensures Outstanding(working[id := o], side)
         == Outstanding(working, side) - (if id in working then LeftOn(working[id], side) else 0) + LeftOn(o, side)
  {
    CountUpdate(Lefts(working, side), id, LeftOn(o, side));
    LeftsUpdate(working, side, id, o);
  }

  lemma NothingLeft(side: Side)
    ensures Outstanding(map[], side) == 0
  {
    assert Lefts(map[], side) == map[];
  }

  // ------------------------------------------------------------------------- the reservations are exact

  // With the gate on, what is reserved on each side is what the working orders of that side have left.
  ghost predicate Exact(w: World) {
    && Backed(w.holdings, w.working)
    && forall id :: id in w.working ==> id < w.nextId
  }

  ghost predicate Backed(h: Holdings, working: map<nat, Working>) {
    && h.pendingBuy == Outstanding(working, Buy)
    && h.pendingSell == Outstanding(working, Sell)
  }

  // What a report takes out of one side's remainders: what it executed, and the rest if it ends the order.
  lemma ReportTakesOut(working: map<nat, Working>, r: ExecutionReport, side: Side)
    requires FromVenue(working, r)
    ensures
      var taken := if r.Ours() && r.side == side
                   then r.Executed() + (if r.execType.Terminal() then r.Remaining() else 0)
                   else 0;
      Outstanding(WorkingReported(working, r), side) == Outstanding(working, side) - taken
  {
    var id := r.orderId;
    if id in working {
      var o := working[id];
      TakeOut(working, side, id);
      PutIn(working, side, id, o.(remaining := MaxInt(0, o.remaining - r.Executed())));
    }
  }

  lemma ReportKeepsBacked(h: Holdings, working: map<nat, Working>, r: ExecutionReport)
    requires Backed(h, working) && FromVenue(working, r)
    ensures Backed(HoldingsReported(h, r), WorkingReported(working, r))
    ensures r.Ours() ==> r.Executed() <= h.PendingOn(r.side)
    ensures r.execType.Terminal() ==> r.Remaining() <= h.PendingOn(r.side)
  {
    ReportTakesOut(working, r, Buy);
    ReportTakesOut(working, r, Sell);
  }

  lemma SubmitKeepsBacked(g: Gate, h: Holdings, working: map<nat, Working>, o: Order, accepted: bool, id: nat)
    requires Backed(h, working) && g.limits.positionLimit > 0 && !o.side.Unknown? && id !in working
    ensures Backed(HoldingsSubmitted(g, h, o, accepted),
                   if accepted then working[id := Working(o.side.AtVenue(), o.quantity)] else working)
  {
    ReleaseUndoesReserve(h, o.side, o.quantity);
    PutIn(working, Buy, id, Working(o.side.AtVenue(), o.quantity));
    PutIn(working, Sell, id, Working(o.side.AtVenue(), o.quantity));
  }

  lemma StepKeepsExact(c: Config, w: World, e: Event)
    requires Exact(w) && Honest(w, e) && w.gate.limits.positionLimit > 0
    ensures Exact(Step(c, w, e)) && Step(c, w, e).gate.limits == w.gate.limits
  {
    match e
    case CycleStart(netPnl, ts) =>
    case Submit(s, accepted) => SubmitKeepsBacked(w.gate, w.holdings, w.working, s.order, accepted, w.nextId);
    case Report(r, cycle, ahead) => ReportKeepsBacked(w.holdings, w.working, r);
    case _ =>
  }

  // In every run with the gate on from the start, the reservations equal the working remainders, so no
  // release takes out more than is there.
  lemma {:induction false} ReservationsAreExact(c: Config, limits: Limits, events: seq<Event>)
    requires limits.positionLimit > 0 && HonestRun(c, limits, events)
    ensures Exact(Run(c, limits, events)) && Run(c, limits, events).gate.limits == limits
  {
    if events == [] {
      NothingLeft(Buy);
      NothingLeft(Sell);
    } else {
      var before := events[..|events| - 1];
      ReservationsAreExact(c, limits, before);
      StepKeepsExact(c, Run(c, limits, before), events[|events| - 1]);
    }
  }

  // ------------------------------------------------------------------------------ how far the net can go

  // The remainder an event gives back, signed.
  function Returned(e: Event): int {
    if e.Report? && e.report.execType.Terminal() then e.report.side.Sign() * e.report.Remaining() else 0
  }

  // A report never moves the net by its execution, and by exactly the remainder it gives back.
  lemma ReportMovesNet(c: Config, w: World, e: Event)
    requires Exact(w) && Honest(w, e) && e.Report?
    ensures Step(c, w, e).holdings.Net() == w.holdings.Net() - Returned(e)
  {
    var r := e.report;
    ReportKeepsBacked(w.holdings, w.working, r);
    if r.Ours() {
      FillMovesNet(w.holdings, r.side, r.Executed());
    }
  }

  // An order the gate sees cannot take the net past the limit, nor further past it.
  lemma SubmitBoundsNet(c: Config, w: World, s: Submission, accepted: bool)
    requires w.gate.limits.positionLimit > 0 && !s.order.side.Unknown?
    ensures
      var n := Step(c, w, Event.Submit(s, accepted)).holdings.Net();
      AbsInt(n) <= MaxInt(w.gate.limits.positionLimit, AbsInt(w.holdings.Net()))
  {
    ReleaseUndoesReserve(w.holdings, s.order.side, s.order.quantity);
    if DecisionOn(c, w, s).Allowed? {
      PositionGate(w.gate, s.order, ContextOf(c, w.holdings, s));
    }
  }

  // One step takes the net past the limit from within exactly when it ends an order whose remainder
  // carries it there.
  lemma OnlyReturnsBreach(c: Config, w: World, e: Event)
    requires Exact(w) && Honest(w, e) && w.gate.limits.positionLimit > 0
    requires AbsInt(w.holdings.Net()) <= w.gate.limits.positionLimit
    ensures AbsInt(Step(c, w, e).holdings.Net()) > w.gate.limits.positionLimit
            <==> Returned(e) != 0 && AbsInt(w.holdings.Net() - Returned(e)) > w.gate.limits.positionLimit
  {
    match e
    case CycleStart(netPnl, ts) =>
    case Submit(s, accepted) => SubmitBoundsNet(c, w, s, accepted);
    case Report(r, cycle, ahead) => ReportMovesNet(c, w, e);
    case _ =>
  }

  ghost predicate NoReturns(events: seq<Event>) {
    forall i :: 0 <= i < |events| ==> Returned(events[i]) == 0
  }

  ghost predicate Within(w: World, limit: int) {
    AbsInt(w.holdings.Net()) <= limit
  }

  lemma StepStaysWithin(c: Config, w: World, e: Event, limit: int)
    requires Exact(w) && Honest(w, e) && w.gate.limits.positionLimit == limit > 0
    requires Within(w, limit) && Returned(e) == 0
    ensures Within(Step(c, w, e), limit)
  {
    OnlyReturnsBreach(c, w, e);
  }

  lemma {:induction false} RunStaysWithin(c: Config, limits: Limits, events: seq<Event>)
    requires limits.positionLimit > 0 && HonestRun(c, limits, events) && NoReturns(events)
    ensures Within(Run(c, limits, events), limits.positionLimit)
  {
    if events != [] {
      var before := events[..|events| - 1];
      RunStaysWithin(c, limits, before);
      ReservationsAreExact(c, limits, before);
      StepStaysWithin(c, Run(c, limits, before), events[|events| - 1], limits.positionLimit);
    }
  }

  // The net is within the limit, and so is the position once nothing is working.
  ghost predicate Confined(w: World, limit: int) {
    Within(w, limit) && (w.working == map[] ==> AbsInt(w.holdings.position) <= limit)
  }

  lemma ExactIsConfined(w: World, limit: int)
    requires Exact(w) && Within(w, limit)
    ensures Confined(w, limit)
  {
    if w.working == map[] {
      IdleIsFlat(w);
    }
  }

  // While no cancelled or rejected remainder comes back, the net never leaves the limit, and with nothing
  // working the position itself is within it.
  lemma WithinLimitWithoutReturns(c: Config, limits: Limits, events: seq<Event>, w: World)
    requires limits.positionLimit > 0 && HonestRun(c, limits, events) && NoReturns(events)
    requires w == Run(c, limits, events)
    ensures Confined(w, limits.positionLimit)
  {
    RunStaysWithin(c, limits, events);
    ReservationsAreExact(c, limits, events);
    ExactIsConfined(w, limits.positionLimit);
  }

  lemma IdleIsFlat(w: World)
    requires Exact(w) && w.working == map[]
    ensures w.holdings.Net() == w.holdings.position
  {
    NothingLeft(Buy);
    NothingLeft(Sell);
  }

  // The release does not look at the owner. For a report that is not ours and names no order of ours the
  // reservations stay exact if and only if it ends nothing, or leaves nothing of what it ends, or nothing is
  // reserved on its side. The public orders of FromVenue meet the second.
  lemma ForeignReportsKeepBacked(h: Holdings, working: map<nat, Working>, r: ExecutionReport)
    requires Backed(h, working) && !r.Ours() && r.orderId !in working
    ensures Backed(HoldingsReported(h, r), WorkingReported(working, r))
            <==> !r.execType.Terminal() || r.Remaining() == 0 || h.PendingOn(r.side) == 0
    ensures FromVenue(working, r) ==> HoldingsReported(h, r) == h && WorkingReported(working, r) == working
  {
  }

  // ------------------------------------------------------------------ what returns can do to the position

  // Every control off but the position gate.
  ghost predicate OnlyPosition(l: Limits) {
    && l.positionLimit > 0 && l.maxExposureUsd == 0.0 && l.killSwitchLossUsd == 0.0 && l.fatFingerBps == 0.0
    && l.maxOrdersPerSecond == 0.0
  }

  // The n-th rung: one working order of n limits, buys and sells in turn, and no position.
  function Size(n: nat, limit: nat): nat {
    if n == 0 then 0 else Size(n - 1, limit) + limit
  }

  function SideOf(n: nat): Side {
    if n % 2 == 1 then Buy else Sell
  }

  function Rung(l: Limits, n: nat): World
    requires l.positionLimit > 0
  {
    var size := Size(n, l.positionLimit);
    World(Fresh(l), Holdings(0, if SideOf(n).Buy? then size else 0, if SideOf(n).Sell? then size else 0), n + 1,
          if n == 0 then map[] else map[n := Working(SideOf(n), size)])
  }

  // The order that climbs to a rung, and the reports that end an order.
  function Climb(l: Limits, n: nat): Event
    requires l.positionLimit > 0
  {
    var o := Order(AsIntent(SideOf(n)), 1.0, Size(n, l.positionLimit));
    Event.Submit(Submission(o, "", None, 0.0, 0, 0), true)
  }

  function ReportOn(n: nat, e: ExecType, quantity: nat): Event {
    Report(ExecutionReport(n, SideOf(n), e, "", 1.0, quantity, 0, OUR_OWNER, Maker, 0.0), 0, map[])
  }

  lemma GateLetsThrough(l: Limits, o: Order, c: Context)
    requires OnlyPosition(l) && AbsInt(Projected(o, c)) <= l.positionLimit
    ensures Decide(Fresh(l), o, c) == Allowed && AfterCheck(Fresh(l), o, c) == Fresh(l)
  {
  }

  // From one rung, an order the other way leaves the net one limit past zero, which the gate allows; the
  // first order's cancel then leaves the net at the next rung.
  lemma ClimbFrom(c: Config, l: Limits, n: nat)
    requires OnlyPosition(l) && n > 0
    ensures
      var limit := l.positionLimit;
      var both := Step(c, Rung(l, n), Climb(l, n + 1));
      && Honest(Rung(l, n), Climb(l, n + 1))
      && AbsInt(both.holdings.Net()) == limit
      && Honest(both, ReportOn(n, ExecType.Cancelled, Size(n, limit)))
      && Step(c, both, ReportOn(n, ExecType.Cancelled, Size(n, limit))) == Rung(l, n + 1)
  {
    var w, s := Rung(l, n), Climb(l, n + 1).request;
    GateLetsThrough(l, s.order, ContextOf(c, w.holdings, s));
    var both := Step(c, w, Climb(l, n + 1));
    assert both.working == map[n := Working(SideOf(n), Size(n, l.positionLimit)),
                               n + 1 := Working(SideOf(n + 1), Size(n + 1, l.positionLimit))];
    assert both.working - {n} == map[n + 1 := Working(SideOf(n + 1), Size(n + 1, l.positionLimit))];
  }

  lemma FirstRung(c: Config, l: Limits)
    requires OnlyPosition(l)
    ensures Honest(Start(l), Climb(l, 1)) && Step(c, Start(l), Climb(l, 1)) == Rung(l, 1)
  {
    var s := Climb(l, 1).request;
    assert Size(1, l.positionLimit) == Size(0, l.positionLimit) + l.positionLimit;
    GateLetsThrough(l, s.order, ContextOf(c, Start(l).holdings, s));
    assert map[][1 := Working(Buy, Size(1, l.positionLimit))] == map[1 := Working(Buy, Size(1, l.positionLimit))];
  }

  lemma Extend(c: Config, l: Limits, events: seq<Event>, e: Event)
    requires HonestRun(c, l, events) && Honest(Run(c, l, events), e)
    ensures HonestRun(c, l, events + [e]) && Run(c, l, events + [e]) == Step(c, Run(c, l, events), e)
  {
    assert (events + [e])[..|events + [e]| - 1] == events;
  }

  lemma {:induction false} RungIsReachable(c: Config, l: Limits, n: nat) returns (events: seq<Event>)
    requires OnlyPosition(l) && n > 0
    ensures HonestRun(c, l, events) && Run(c, l, events) == Rung(l, n)
  {
    if n == 1 {
      FirstRung(c, l);
      assert HonestRun(c, l, []) && Run(c, l, []) == Start(l);
      Extend(c, l, [], Climb(l, 1));
      events := [] + [Climb(l, 1)];
    } else {
      var before := RungIsReachable(c, l, n - 1);
      ClimbFrom(c, l, n - 1);
      var cancel := ReportOn(n - 1, ExecType.Cancelled, Size(n - 1, l.positionLimit));
      Extend(c, l, before, Climb(l, n));
      Extend(c, l, before + [Climb(l, n)], cancel);
      events := before + [Climb(l, n)] + [cancel];
    }
  }

  lemma FillRung(c: Config, l: Limits, n: nat)
    requires OnlyPosition(l) && n > 0
    ensures
      var w, size := Rung(l, n), Size(n, l.positionLimit);
      var traded := Step(c, w, ReportOn(n, ExecType.Trade, size));
      var done := Step(c, traded, ReportOn(n, ExecType.Filled, 0));
      && Honest(w, ReportOn(n, ExecType.Trade, size)) && Honest(traded, ReportOn(n, ExecType.Filled, 0))
      && done.working == map[] && done.holdings.position == SideOf(n).Sign() * size
  {
    assert Size(n, l.positionLimit) > 0;
    var traded := Step(c, Rung(l, n), ReportOn(n, ExecType.Trade, Size(n, l.positionLimit)));
    assert traded.working == map[n := Working(SideOf(n), 0)];
    assert traded.working - {n} == map[];
  }

  // With the gate on, cancels and fills alone can take the position as far as one likes: for every n there
  // is an honest run that ends with nothing working and a position of n limits.
  lemma CancelsDefeatTheGate(c: Config, l: Limits, n: nat) returns (events: seq<Event>)
    requires OnlyPosition(l) && n > 0
    ensures HonestRun(c, l, events)
    ensures Run(c, l, events).working == map[]
    ensures AbsInt(Run(c, l, events).holdings.position) == n * l.positionLimit
  {
    SizeIs(n, l.positionLimit);
    var before := RungIsReachable(c, l, n);
    FillRung(c, l, n);
    var trade, filled := ReportOn(n, ExecType.Trade, Size(n, l.positionLimit)), ReportOn(n, ExecType.Filled, 0);
    Extend(c, l, before, trade);
    Extend(c, l, before + [trade], filled);
    events := before + [trade] + [filled];
  }

  lemma {:induction false} SizeIs(n: nat, limit: nat)
    ensures Size(n, limit) == n * limit
  {
    if n > 0 {
      SizeIs(n - 1, limit);
    }
  }
}

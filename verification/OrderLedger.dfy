// The life of every order a run placed (src/app/order_ledger.h, order_ledger.cpp): an audit entry opened at
// submission, moved by reports, and closed by the one that ends the order.
module OrderLedger {
  import opened CommissionHistogram
  import opened Exchange
  import opened InstrumentSpec
  import opened Options
  import opened RunSummary

  datatype OrderState = Pending | Resting | PartiallyFilled | Filled | Cancelled | Rejected {
    predicate Terminal() {
      Filled? || Cancelled? || Rejected?
    }
  }

  // The queue an order joined behind at its level, the least it was seen to be, and what was left of it when
  // the order was last known to leave.
  datatype QueueMark = QueueMark(level: PriceLevel, atRest: nat, least: nat, atEnd: nat)

  // Only an order that rested has a queue.
  datatype Audit = Audit(
    state: OrderState,
    startCycle: nat,
    filled: bool,
    filledQuantity: nat,
    commission: real,
    queue: Option<QueueMark>)

  // The orders that rested behind a queue and ended: how near they came, and what was still ahead at the end.
  datatype Profile = Profile(least: seq<real>, atEnd: seq<real>, orders: nat, reachedFront: nat)

  // A broker's commission per unit and its floor per order; the scale turns quantities into units.
  datatype Terms = Terms(quantityScale: real, perUnit: real, floor: real)

  datatype Ledger = Ledger(
    audits: map<nat, Audit>,
    starts: map<nat, nat>,
    pendingCancels: set<nat>,
    longestWaitId: nat,
    longestWaitCycles: nat,
    firstFillId: nat,
    profile: Profile)

  // The ledger together with the shared counts it maintains.
  datatype Books = Books(ledger: Ledger, counts: OrderCounts)

  const EMPTY_LEDGER := Ledger(map[], map[], {}, 0, 0, 0, Profile([], [], 0, 0))

  function NewAudit(cycle: nat): Audit {
    Audit(Pending, cycle, false, 0, 0.0, None)
  }

  // The moves an order may make: forward only, and none out of a terminal state.
  predicate MayMove(from: OrderState, to: OrderState) {
    match from
    case Pending => !to.Pending?
    case Resting => !to.Pending? && !to.Resting?
    case PartiallyFilled => !to.Pending? && !to.Resting?
    case _ => false
  }

  function Lifetime(start: nat, cycle: nat): nat {
    if cycle >= start then cycle - start else 0
  }

  // -------------------------------------------------------------------------------------- the operations

  function Opened(b: Books, id: nat, cycle: nat): Books {
    Books(b.ledger.(audits := b.ledger.audits[id := NewAudit(cycle)],
                    starts := b.ledger.starts[id := cycle]),
          b.counts.(audited := b.counts.audited + 1))
  }

  function LevelOf(r: ExecutionReport): PriceLevel {
    PriceLevel(r.symbol, r.side, r.price)
  }

  function RestedEntry(a: Audit, r: ExecutionReport, ahead: QueueAhead): Audit {
    var queue := AheadAt(ahead, LevelOf(r));
    a.(state := OrderState.Resting, queue := Some(QueueMark(LevelOf(r), queue, queue, 0)))
  }

  // The order rests behind the queue it finds, unless it has already moved past that.
  function MarkedResting(b: Books, r: ExecutionReport, ahead: QueueAhead): Books {
    var id := r.orderId;
    if id !in b.ledger.audits then b
    else if MayMove(b.ledger.audits[id].state, OrderState.Resting)
    then b.(ledger := b.ledger.(audits := b.ledger.audits[id := RestedEntry(b.ledger.audits[id], r, ahead)]))
    else b.(counts := b.counts.(invalidTransitions := b.counts.invalidTransitions + 1))
  }

  // The first request to cancel reads the queue that is still ahead, while the order is there to have one.
  function CancelBegun(l: Ledger, id: nat, ahead: QueueAhead): Ledger {
    if id in l.pendingCancels then l
    else
      var asked := l.(pendingCancels := l.pendingCancels + {id});
      if id in l.audits && l.audits[id].queue.Some?
      then asked.(audits := l.audits[id := LeavingEntry(l.audits[id], ahead)])
      else asked
  }

  function LeavingEntry(a: Audit, ahead: QueueAhead): Audit
    requires a.queue.Some?
  {
    a.(queue := Some(a.queue.value.(atEnd := AheadAt(ahead, a.queue.value.level))))
  }

  function SampledEntry(a: Audit, ahead: QueueAhead): Audit {
    if a.queue.Some? && AheadAt(ahead, a.queue.value.level) < a.queue.value.least
    then a.(queue := Some(a.queue.value.(least := AheadAt(ahead, a.queue.value.level))))
    else a
  }

  // Every open order's queue is looked at.
  function Sampled(l: Ledger, ahead: QueueAhead): Ledger {
    l.(audits := map id | id in l.audits :: SampledEntry(l.audits[id], ahead))
  }

  // The state a report asks for; a Resting report asks for none here.
  function Requested(e: ExecType): Option<OrderState> {
    match e
    case Trade => Some(PartiallyFilled)
    case PartialFill => Some(PartiallyFilled)
    case Filled => Some(OrderState.Filled)
    case Cancelled => Some(OrderState.Cancelled)
    case Rejected => Some(OrderState.Rejected)
    case Resting => None
  }

  function CommissionOf(t: Terms, quantity: nat): real {
    if t.perUnit > 0.0 then UnitsIn(t, quantity) * t.perUnit else 0.0
  }

  function UnitsIn(t: Terms, quantity: nat): real {
    if t.quantityScale > 0.0 then quantity as real / t.quantityScale else quantity as real
  }

  // The entry after a report: a trade accumulates, whatever the transition table says of it.
  function Recorded(a: Audit, r: ExecutionReport, t: Terms): Audit {
    var to := Requested(r.execType);
    var moved := if to.Some? && MayMove(a.state, to.value) then a.(state := to.value) else a;
    if r.execType.Trade?
    then moved.(filled := true, filledQuantity := a.filledQuantity + r.quantity,
                commission := a.commission + CommissionOf(t, r.quantity), queue := QueueAfterTrade(a.queue, r.Ours()))
    else moved
  }

  // Who trades was first in line.
  function QueueAfterTrade(q: Option<QueueMark>, ours: bool): Option<QueueMark> {
    if ours && q.Some? then Some(q.value.(least := 0, atEnd := 0)) else q
  }

  // An order that rested behind no queue has nothing to be a fraction of.
  function Profiled(p: Profile, q: Option<QueueMark>): Profile {
    if q.None? || q.value.atRest == 0 then p
    else
      var atRest := q.value.atRest as real;
      Profile(p.least + [q.value.least as real / atRest], p.atEnd + [q.value.atEnd as real / atRest], p.orders + 1,
              p.reachedFront + if q.value.least == 0 then 1 else 0)
  }

  predicate Refused(a: Audit, e: ExecType) {
    Requested(e).Some? && !MayMove(a.state, Requested(e).value)
  }

  // The counts an order leaves behind when a report ends it.
  function Closed(c: OrderCounts, a: Audit, e: ExecType, lifetime: nat, t: Terms): OrderCounts
    requires c.sizes.Valid()
  {
    var owed := if a.filled then MinCommissionShortfall(t.floor, a.commission) else 0.0;
    c.(orderLifetime := c.orderLifetime + lifetime,
       filled := c.filled + (if e.Filled? then 1 else 0),
       rejected := c.rejected + (if e.Rejected? then 1 else 0),
       cancelled := c.cancelled + (if e.Cancelled? then 1 else 0),
       cancelledAfterFill := c.cancelledAfterFill + (if e.Cancelled? && a.filled then 1 else 0),
       cancelledBeforeFill := c.cancelledBeforeFill + (if e.Cancelled? && !a.filled then 1 else 0),
       ordersThatFilled := c.ordersThatFilled + (if a.filled then 1 else 0),
       sizes := if a.filled then Add(c.sizes, a.filledQuantity) else c.sizes,
       minCommissionOrders := c.minCommissionOrders + (if owed > 0.0 then 1 else 0),
       minCommissionPaid := c.minCommissionPaid + owed)
  }

  // The quote's own lifetime, closed before anything else the report does.
  function QuoteClosed(b: Books, id: nat, cycle: nat): Books {
    var cancels := b.ledger.(pendingCancels := b.ledger.pendingCancels - {id});
    if id !in b.ledger.starts then b.(ledger := cancels)
    else
      var lifetime := Lifetime(b.ledger.starts[id], cycle);
      Books(cancels.(starts := b.ledger.starts - {id}),
            b.counts.(quoteLifetime := b.counts.quoteLifetime + lifetime,
                      maxQuoteLifetime := MaxInt(b.counts.maxQuoteLifetime, lifetime)))
  }

  function Reported(b: Books, r: ExecutionReport, cycle: nat, t: Terms): Books
    requires b.counts.sizes.Valid()
  {
    var q := if r.execType.Terminal() then QuoteClosed(b, r.orderId, cycle) else b;
    var audited := AuditReport(q, r, cycle, t);
    if r.execType.Trade? && r.Ours() && audited.ledger.firstFillId == 0
    then audited.(ledger := audited.ledger.(firstFillId := r.orderId))
    else audited
  }

  // A report for an order that is not open is counted, if it is ours, and applied to nothing.
  function AuditReport(q: Books, r: ExecutionReport, cycle: nat, t: Terms): Books
    requires q.counts.sizes.Valid()
  {
    var id := r.orderId;
    if id !in q.ledger.audits then
      if r.Ours() then q.(counts := q.counts.(orphans := q.counts.orphans + 1)) else q
    else
      var a := Recorded(q.ledger.audits[id], r, t);
      var c := if Refused(q.ledger.audits[id], r.execType)
               then q.counts.(invalidTransitions := q.counts.invalidTransitions + 1) else q.counts;
      if r.execType.Terminal() then
        var lifetime := Lifetime(a.startCycle, cycle);
        var longest := a.filled && lifetime > q.ledger.longestWaitCycles;
        Books(q.ledger.(audits := q.ledger.audits - {id},
                        longestWaitCycles := if longest then lifetime else q.ledger.longestWaitCycles,
                        longestWaitId := if longest then id else q.ledger.longestWaitId,
                        profile := Profiled(q.ledger.profile, a.queue)),
              Closed(c, a, r.execType, lifetime, t))
      else Books(q.ledger.(audits := q.ledger.audits[id := a]), c)
  }

  // What the account is to be charged when the report ends a filled order.
  function Owed(b: Books, r: ExecutionReport, t: Terms): real {
    if r.execType.Terminal() && r.orderId in b.ledger.audits && Recorded(b.ledger.audits[r.orderId], r, t).filled
    then MinCommissionShortfall(t.floor, Recorded(b.ledger.audits[r.orderId], r, t).commission)
    else 0.0
  }

  // ------------------------------------------------------------------------------------------- the class

  class OrderLedger {
    var orderAudit: map<nat, Audit>
    var orderStartCycles: map<nat, nat>
    var pendingCancelOrders: set<nat>
    var longestWaitFilledOrderId: nat
    var longestWaitFilledCycles: nat
    var firstFillOrderId: nat
    var queueMinFractions: seq<real>
    var queueEndFractions: seq<real>
    var queueProfileOrders: nat
    var queueZeroOrders: nat

    function State(): Ledger
      reads this
    {
      Ledger(orderAudit, orderStartCycles, pendingCancelOrders, longestWaitFilledOrderId, longestWaitFilledCycles,
             firstFillOrderId, QueueProfile())
    }

    function QueueProfile(): Profile
      reads this
    {
      Profile(queueMinFractions, queueEndFractions, queueProfileOrders, queueZeroOrders)
    }

    ghost function Held(quality: ExecutionQuality): Books
      reads this, quality
    {
      Books(State(), quality.orders)
    }

    constructor ()
      ensures State() == EMPTY_LEDGER
    {
      orderAudit, orderStartCycles, pendingCancelOrders := map[], map[], {};
      longestWaitFilledOrderId, longestWaitFilledCycles, firstFillOrderId := 0, 0, 0;
      queueMinFractions, queueEndFractions, queueProfileOrders, queueZeroOrders := [], [], 0, 0;
    }

    // The one place a transition is accepted or refused.
    static method Transition(state: OrderState, next: OrderState, quality: ExecutionQuality)
      returns (now: OrderState, allowed: bool)
      modifies quality`orders
      ensures allowed == MayMove(state, next)
      ensures now == if MayMove(state, next) then next else state
      ensures quality.orders == if MayMove(state, next) then old(quality.orders)
                                else old(quality.orders).(invalidTransitions := old(quality.orders).invalidTransitions + 1)
    {
      if !MayMove(state, next) {
        quality.orders := quality.orders.(invalidTransitions := quality.orders.invalidTransitions + 1);
        return state, false;
      }
      return next, true;
    }

    method OpenOrder(id: nat, cycle: nat, quality: ExecutionQuality)
      modifies this`orderStartCycles, this`orderAudit, quality`orders
      ensures Held(quality) == Opened(old(Held(quality)), id, cycle)
    {
      orderStartCycles := orderStartCycles[id := cycle];
      orderAudit := orderAudit[id := NewAudit(cycle)];
      quality.orders := quality.orders.(audited := quality.orders.audited + 1);
    }

    // `ahead` is what the venue answers when it is asked for the queue at a level.
    method MarkResting(report: ExecutionReport, ahead: QueueAhead, quality: ExecutionQuality)
      modifies this`orderAudit, quality`orders
      ensures Held(quality) == MarkedResting(old(Held(quality)), report, ahead)
    {
      if report.orderId !in orderAudit {
        return;
      }
      var audit := orderAudit[report.orderId];
      var state, allowed := Transition(audit.state, OrderState.Resting, quality);
      if !allowed {
        return;
      }
      var level := PriceLevel(report.symbol, report.side, report.price);
      var queue := AheadAt(ahead, level);
      orderAudit := orderAudit[report.orderId := audit.(state := state, queue := Some(QueueMark(level, queue, queue, 0)))];
    }

    // True once for each order until a report ends it.
    method BeginCancel(id: nat, ahead: QueueAhead) returns (requested: bool)
      modifies this`pendingCancelOrders, this`orderAudit
      ensures requested == (id !in old(pendingCancelOrders))
      ensures State() == CancelBegun(old(State()), id, ahead)
    {
      if id in pendingCancelOrders {
        return false;
      }
      pendingCancelOrders := pendingCancelOrders + {id};
      if id in orderAudit && orderAudit[id].queue.Some? {
        var mark := orderAudit[id].queue.value;
        orderAudit := orderAudit[id := orderAudit[id].(queue := Some(mark.(atEnd := AheadAt(ahead, mark.level))))];
      }
      return true;
    }

    // The table is visited in whatever order it keeps.
    method SampleResting(ahead: QueueAhead)
      modifies this`orderAudit
      ensures State() == Sampled(old(State()), ahead)
    {
      var todo := orderAudit.Keys;
      while todo != {}
        invariant todo <= old(orderAudit).Keys == orderAudit.Keys
        invariant forall id :: id in orderAudit ==>
                    orderAudit[id] == if id in todo then old(orderAudit)[id] else SampledEntry(old(orderAudit)[id], ahead)
        decreases |todo|
      {
        var id :| id in todo;
        todo := todo - {id};
        var mark := orderAudit[id].queue;
        if mark.Some? && AheadAt(ahead, mark.value.level) < mark.value.least {
          orderAudit :=
            orderAudit[id := orderAudit[id].(queue := Some(mark.value.(least := AheadAt(ahead, mark.value.level))))];
        }
      }
      assert orderAudit == Sampled(old(State()), ahead).audits;
    }

    method CloseQuote(id: nat, cycle: nat, quality: ExecutionQuality)
      modifies this`orderStartCycles, this`pendingCancelOrders, quality`orders
      ensures Held(quality) == QuoteClosed(old(Held(quality)), id, cycle)
    {
      if id in orderStartCycles {
        var lifetime := Lifetime(orderStartCycles[id], cycle);
        quality.orders := quality.orders.(
          quoteLifetime := quality.orders.quoteLifetime + lifetime,
          maxQuoteLifetime := MaxInt(quality.orders.maxQuoteLifetime, lifetime));
        orderStartCycles := orderStartCycles - {id};
      }
      pendingCancelOrders := pendingCancelOrders - {id};
    }

    // The entry's own part of a report.
    static method Record(audit: Audit, report: ExecutionReport, t: Terms, quality: ExecutionQuality)
      returns (after: Audit)
      modifies quality`orders
      ensures after == Recorded(audit, report, t).(queue := audit.queue)
      ensures quality.orders == if Refused(audit, report.execType)
                                then old(quality.orders).(invalidTransitions := old(quality.orders).invalidTransitions + 1)
                                else old(quality.orders)
    {
      after := audit;
      var state, allowed := audit.state, true;
      if report.execType.Trade? || report.execType.PartialFill? {
        state, allowed := Transition(state, PartiallyFilled, quality);
      } else if report.execType.Filled? {
        state, allowed := Transition(state, OrderState.Filled, quality);
      } else if report.execType.Cancelled? {
        state, allowed := Transition(state, OrderState.Cancelled, quality);
      } else if report.execType.Rejected? {
        state, allowed := Transition(state, OrderState.Rejected, quality);
      }
      after := after.(state := state);
      if report.execType.Trade? {
        after := after.(filled := true, filledQuantity := after.filledQuantity + report.quantity);
        if t.perUnit > 0.0 {
          var units := if t.quantityScale > 0.0 then report.quantity as real / t.quantityScale else report.quantity as real;
          after := after.(commission := after.commission + units * t.perUnit);
        }
      }
    }

    method AddToProfile(mark: QueueMark)
      requires mark.atRest > 0
      modifies this`queueMinFractions, this`queueEndFractions, this`queueProfileOrders, this`queueZeroOrders
      ensures QueueProfile() == Profiled(old(QueueProfile()), Some(mark))
    {
      var atRest := mark.atRest as real;
      queueMinFractions := queueMinFractions + [mark.least as real / atRest];
      queueEndFractions := queueEndFractions + [mark.atEnd as real / atRest];
      queueProfileOrders := queueProfileOrders + 1;
      if mark.least == 0 {
        queueZeroOrders := queueZeroOrders + 1;
      }
    }

    // Everything the end of an order adds to the counts; returns what the floor still owes.
    method CloseAudit(id: nat, audit: Audit, e: ExecType, cycle: nat, t: Terms, quality: ExecutionQuality)
      returns (owed: real)
      requires quality.orders.sizes.Valid() && e.Terminal()
      modifies this`orderAudit, this`longestWaitFilledOrderId, this`longestWaitFilledCycles, this`queueMinFractions,
               this`queueEndFractions, this`queueProfileOrders, this`queueZeroOrders, quality`orders
      ensures owed == if audit.filled then MinCommissionShortfall(t.floor, audit.commission) else 0.0
      ensures quality.orders == Closed(old(quality.orders), audit, e, Lifetime(audit.startCycle, cycle), t)
      ensures orderAudit == old(orderAudit) - {id}
      ensures QueueProfile() == Profiled(old(QueueProfile()), audit.queue)
      ensures
        var lifetime := Lifetime(audit.startCycle, cycle);
        if audit.filled && lifetime > old(longestWaitFilledCycles)
        then longestWaitFilledCycles == lifetime && longestWaitFilledOrderId == id
        else longestWaitFilledCycles == old(longestWaitFilledCycles)
             && longestWaitFilledOrderId == old(longestWaitFilledOrderId)
    {
      owed := 0.0;
      var lifetime := Lifetime(audit.startCycle, cycle);
      var c := quality.orders.(orderLifetime := quality.orders.orderLifetime + lifetime);
      if audit.filled && lifetime > longestWaitFilledCycles {
        longestWaitFilledCycles := lifetime;
        longestWaitFilledOrderId := id;
      }
      if e.Cancelled? && audit.filled {
        c := c.(cancelledAfterFill := c.cancelledAfterFill + 1);
      } else if e.Cancelled? {
        c := c.(cancelledBeforeFill := c.cancelledBeforeFill + 1);
      }
      if e.Filled? {
        c := c.(filled := c.filled + 1);
      } else if e.Rejected? {
        c := c.(rejected := c.rejected + 1);
      } else {
        c := c.(cancelled := c.cancelled + 1);
      }
      if audit.queue.Some? && audit.queue.value.atRest > 0 {
        AddToProfile(audit.queue.value);
      }
      if audit.filled {
        c := c.(ordersThatFilled := c.ordersThatFilled + 1, sizes := Add(c.sizes, audit.filledQuantity));
        var shortfall := MinCommissionShortfall(t.floor, audit.commission);
        if shortfall > 0.0 {
          owed := shortfall;
          c := c.(minCommissionOrders := c.minCommissionOrders + 1, minCommissionPaid := c.minCommissionPaid + shortfall);
        }
      }
      quality.orders := c;
      orderAudit := orderAudit - {id};
    }

    // A fill says that nothing was left ahead of the order.
    method ClearQueue(id: nat)
      requires id in orderAudit && orderAudit[id].queue.Some?
      modifies this`orderAudit
      ensures
        orderAudit == old(orderAudit)[id := old(orderAudit)[id].(queue := QueueAfterTrade(old(orderAudit)[id].queue, true))]
    {
      var mark := orderAudit[id].queue.value;
      orderAudit := orderAudit[id := orderAudit[id].(queue := Some(mark.(least := 0, atEnd := 0)))];
    }

    method OnReport(report: ExecutionReport, cycle: nat, quality: ExecutionQuality, t: Terms) returns (owed: real)
      requires quality.orders.sizes.Valid()
      modifies this, quality`orders
      ensures Held(quality) == Reported(old(Held(quality)), report, cycle, t)
      ensures owed == Owed(old(Held(quality)), report, t)
    {
      if report.execType.Terminal() {
        CloseQuote(report.orderId, cycle, quality);
      }
      owed := ApplyToAudit(report, cycle, quality, t);
      if report.execType.Trade? && report.Ours() {
        if firstFillOrderId == 0 {
          firstFillOrderId := report.orderId;
        }
        if report.orderId in orderAudit && orderAudit[report.orderId].queue.Some? {
          ClearQueue(report.orderId);
        }
      }
    }

    // All but what a trade of ours says of the queue.
    method ApplyToAudit(report: ExecutionReport, cycle: nat, quality: ExecutionQuality, t: Terms) returns (owed: real)
      requires quality.orders.sizes.Valid()
      modifies this, quality`orders
      ensures
        var id, after := report.orderId, AuditReport(old(Held(quality)), report, cycle, t);
        Held(quality) ==
          if report.execType.Trade? && id in old(orderAudit)
          then after.(ledger := after.ledger.(audits :=
                 after.ledger.audits[id := after.ledger.audits[id].(queue := old(orderAudit)[id].queue)]))
          else after
      ensures owed == Owed(old(Held(quality)), report, t)
    {
      owed := 0.0;
      if report.orderId in orderAudit {
        var audit := Record(orderAudit[report.orderId], report, t, quality);
        if report.execType.Terminal() {
          owed := CloseAudit(report.orderId, audit, report.execType, cycle, t, quality);
        } else {
          orderAudit := orderAudit[report.orderId := audit];
        }
      } else if report.Ours() {
        quality.orders := quality.orders.(orphans := quality.orders.orphans + 1);
      }
    }
  }

  // ---------------------------------------------------------------------------------- runs of the ledger

  // Submissions, the resting step the pipeline takes before the rest of a report, reports, requests to
  // cancel, and the looks at the queues after a market event.
  datatype Event =
    | Open(id: nat, cycle: nat)
    | Rest(resting: ExecutionReport, ahead: QueueAhead)
    | Report(report: ExecutionReport, cycle: nat)
    | Cancel(id: nat, ahead: QueueAhead)
    | Sample(ahead: QueueAhead)

  function Step(b: Books, e: Event, t: Terms): (next: Books)
    requires b.counts.sizes.Valid()
    ensures next.counts.sizes.Valid()
  {
    match e
    case Open(id, cycle) => Opened(b, id, cycle)
    case Rest(r, ahead) => MarkedResting(b, r, ahead)
    case Report(r, cycle) => Reported(b, r, cycle, t)
    case Cancel(id, ahead) => b.(ledger := CancelBegun(b.ledger, id, ahead))
    case Sample(ahead) => b.(ledger := Sampled(b.ledger, ahead))
  }

  function Run(events: seq<Event>, t: Terms): (b: Books)
    ensures b.counts.sizes.Valid()
  {
    if events == [] then Books(EMPTY_LEDGER, NO_ORDERS)
    else Step(Run(events[..|events| - 1], t), events[|events| - 1], t)
  }

  // No order is submitted under the name of one that is still open.
  ghost predicate FreshIds(events: seq<Event>, t: Terms) {
    events != [] ==>
      var before, e := events[..|events| - 1], events[|events| - 1];
      FreshIds(before, t) && (e.Open? ==> e.id !in Run(before, t).ledger.audits)
  }

  // What every reachable ledger satisfies.
  ghost predicate Consistent(b: Books, t: Terms) {
    var l, c := b.ledger, b.counts;
    && GoodEntries(l, t)
    && c.audited == |l.audits| + c.filled + c.cancelled + c.rejected
    && c.cancelled == c.cancelledBeforeFill + c.cancelledAfterFill
    && c.quoteLifetime == c.orderLifetime
  }

  ghost predicate GoodEntry(a: Audit, t: Terms) {
    && !a.state.Terminal()
    && (!a.filled ==> a.filledQuantity == 0)
    && a.commission == CommissionOf(t, a.filledQuantity)
  }

  lemma CommissionAdds(t: Terms, a: nat, b: nat)
    ensures CommissionOf(t, a + b) == CommissionOf(t, a) + CommissionOf(t, b)
    ensures CommissionOf(t, 0) == 0.0
  {
    var s := if t.quantityScale > 0.0 then t.quantityScale else 1.0;
    assert (a + b) as real == a as real + b as real;
    assert (a as real / s + b as real / s) * s == a as real + b as real;
    assert UnitsIn(t, a + b) == UnitsIn(t, a) + UnitsIn(t, b);
  }

  // A report moves an open entry on, and never refuses: only the resting step can.
  lemma RecordKeeps(a: Audit, r: ExecutionReport, t: Terms)
    requires GoodEntry(a, t)
    ensures !Refused(a, r.execType)
    ensures
      var n := Recorded(a, r, t);
      && n.startCycle == a.startCycle && (n.state.Terminal() <==> r.execType.Terminal())
      && (!n.filled ==> n.filledQuantity == 0) && n.commission == CommissionOf(t, n.filledQuantity)
  {
    CommissionAdds(t, a.filledQuantity, r.quantity);
  }

  lemma SmallerMap(m: map<nat, Audit>, id: nat)
    requires id in m
    ensures |m - {id}| == |m| - 1
  {
    assert (m - {id}).Keys == m.Keys - {id};
  }

  lemma LargerMap(m: map<nat, Audit>, id: nat, a: Audit)
    ensures |m[id := a]| == if id in m then |m| else |m| + 1
  {
    assert m[id := a].Keys == m.Keys + {id};
  }

  // Every entry but the named one is as it was.
  ghost predicate SameElsewhere<V>(m: map<nat, V>, n: map<nat, V>, id: nat) {
    forall k :: k != id ==> (k in m <==> k in n) && (k in m ==> m[k] == n[k])
  }

  ghost predicate GoodEntries(l: Ledger, t: Terms) {
    && l.audits.Keys == l.starts.Keys
    && forall id :: id in l.audits ==> GoodEntry(l.audits[id], t) && l.audits[id].startCycle == l.starts[id]
  }

  lemma EntriesStayGood(l: Ledger, n: Ledger, id: nat, t: Terms)
    requires GoodEntries(l, t) && SameElsewhere(l.audits, n.audits, id) && SameElsewhere(l.starts, n.starts, id)
    requires id in n.audits <==> id in n.starts
    requires id in n.audits ==> GoodEntry(n.audits[id], t) && n.audits[id].startCycle == n.starts[id]
    ensures GoodEntries(n, t)
  {
  }

  lemma ReportOnOpen(b: Books, r: ExecutionReport, cycle: nat, t: Terms)
    requires Consistent(b, t) && b.counts.sizes.Valid() && r.orderId in b.ledger.audits
    ensures GoodEntries(Reported(b, r, cycle, t).ledger, t)
  {
    RecordKeeps(b.ledger.audits[r.orderId], r, t);
    EntriesStayGood(b.ledger, Reported(b, r, cycle, t).ledger, r.orderId, t);
  }

  lemma ReportCounts(b: Books, r: ExecutionReport, cycle: nat, t: Terms)
    requires Consistent(b, t) && b.counts.sizes.Valid() && r.orderId in b.ledger.audits
    ensures
      var n, c := Reported(b, r, cycle, t), Reported(b, r, cycle, t).counts;
      && c.audited == |n.ledger.audits| + c.filled + c.cancelled + c.rejected
      && c.cancelled == c.cancelledBeforeFill + c.cancelledAfterFill
      && c.quoteLifetime == c.orderLifetime
      && c.invalidTransitions == b.counts.invalidTransitions
  {
    var id := r.orderId;
    RecordKeeps(b.ledger.audits[id], r, t);
    SmallerMap(b.ledger.audits, id);
    LargerMap(b.ledger.audits, id, Recorded(b.ledger.audits[id], r, t));
  }

  lemma ReportKeepsConsistent(b: Books, r: ExecutionReport, cycle: nat, t: Terms)
    requires Consistent(b, t) && b.counts.sizes.Valid()
    ensures Consistent(Reported(b, r, cycle, t), t)
    ensures Reported(b, r, cycle, t).counts.invalidTransitions == b.counts.invalidTransitions
  {
    if r.orderId in b.ledger.audits {
      ReportOnOpen(b, r, cycle, t);
      ReportCounts(b, r, cycle, t);
    } else {
      assert Reported(b, r, cycle, t).ledger.audits == b.ledger.audits;
      assert Reported(b, r, cycle, t).ledger.starts == b.ledger.starts;
    }
  }

  // A ledger that differs in the queues alone.
  lemma SameOrders(b: Books, l: Ledger, t: Terms)
    requires Consistent(b, t) && l.starts == b.ledger.starts && l.audits.Keys == b.ledger.audits.Keys
    requires forall id :: id in l.audits ==> l.audits[id] == b.ledger.audits[id].(queue := l.audits[id].queue)
    ensures Consistent(b.(ledger := l), t)
  {
    assert |l.audits| == |l.audits.Keys| == |b.ledger.audits.Keys| == |b.ledger.audits|;
  }

  lemma CancelKeepsConsistent(b: Books, id: nat, ahead: QueueAhead, t: Terms)
    requires Consistent(b, t)
    ensures Consistent(b.(ledger := CancelBegun(b.ledger, id, ahead)), t)
  {
    SameOrders(b, CancelBegun(b.ledger, id, ahead), t);
  }

  lemma SampleKeepsConsistent(b: Books, ahead: QueueAhead, t: Terms)
    requires Consistent(b, t)
    ensures Consistent(b.(ledger := Sampled(b.ledger, ahead)), t)
  {
    SameOrders(b, Sampled(b.ledger, ahead), t);
  }

  lemma OpenKeepsConsistent(b: Books, id: nat, cycle: nat, t: Terms)
    requires Consistent(b, t) && id !in b.ledger.audits
    ensures Consistent(Opened(b, id, cycle), t)
  {
    LargerMap(b.ledger.audits, id, NewAudit(cycle));
    CommissionAdds(t, 0, 0);
  }

  lemma RestKeepsConsistent(b: Books, r: ExecutionReport, ahead: QueueAhead, t: Terms)
    requires Consistent(b, t)
    ensures Consistent(MarkedResting(b, r, ahead), t)
  {
    if r.orderId in b.ledger.audits {
      LargerMap(b.ledger.audits, r.orderId, RestedEntry(b.ledger.audits[r.orderId], r, ahead));
    }
  }

  lemma StepKeepsConsistent(b: Books, e: Event, t: Terms)
    requires Consistent(b, t) && b.counts.sizes.Valid()
    requires e.Open? ==> e.id !in b.ledger.audits
    ensures Consistent(Step(b, e, t), t)
  {
    match e
    case Open(id, cycle) => OpenKeepsConsistent(b, id, cycle, t);
    case Rest(r, ahead) => RestKeepsConsistent(b, r, ahead, t);
    case Report(r, cycle) => ReportKeepsConsistent(b, r, cycle, t);
    case Cancel(id, ahead) => CancelKeepsConsistent(b, id, ahead, t);
    case Sample(ahead) => SampleKeepsConsistent(b, ahead, t);
  }

  // In every reachable ledger: each audited order is open or was filled, cancelled or rejected, and only
  // one of those; each cancelled one is counted before or after a fill; the two lifetime totals agree;
  // nothing stored has ended; and each entry's commission is that of what it filled.
  lemma {:induction false} EveryOrderIsAccounted(events: seq<Event>, t: Terms)
    requires FreshIds(events, t)
    ensures Consistent(Run(events, t), t)
  {
    if events != [] {
      var before := events[..|events| - 1];
      EveryOrderIsAccounted(before, t);
      StepKeepsConsistent(Run(before, t), events[|events| - 1], t);
    }
  }

  // How often a run rested an open order that was past Pending.
  function LateRests(events: seq<Event>, t: Terms): nat {
    if events == [] then 0
    else
      var before, e := events[..|events| - 1], events[|events| - 1];
      var open := Run(before, t).ledger.audits;
      LateRests(before, t) + if e.Rest? && e.resting.orderId in open && !open[e.resting.orderId].state.Pending? then 1 else 0
  }

  // The count of refused transitions is exactly that.
  lemma {:induction false} OnlyLateRestsAreInvalid(events: seq<Event>, t: Terms)
    requires FreshIds(events, t)
    ensures Run(events, t).counts.invalidTransitions == LateRests(events, t)
  {
    if events != [] {
      var before, e := events[..|events| - 1], events[|events| - 1];
      OnlyLateRestsAreInvalid(before, t);
      EveryOrderIsAccounted(before, t);
      if e.Report? {
        ReportKeepsConsistent(Run(before, t), e.report, e.cycle, t);
      }
    }
  }

  // --------------------------------------------------------------------------- what the floor collects

  // The filled quantities of the orders that ended filled, in order, and the charges of the run.
  function EndedBy(b: Books, e: Event, t: Terms): seq<nat> {
    if e.Report? && e.report.execType.Terminal() && e.report.orderId in b.ledger.audits
       && Recorded(b.ledger.audits[e.report.orderId], e.report, t).filled
    then [Recorded(b.ledger.audits[e.report.orderId], e.report, t).filledQuantity]
    else []
  }

  function EndedSizes(events: seq<Event>, t: Terms): seq<nat> {
    if events == [] then []
    else
      var before, e := events[..|events| - 1], events[|events| - 1];
      EndedSizes(before, t) + EndedBy(Run(before, t), e, t)
  }

  function OwedBy(b: Books, e: Event, t: Terms): real {
    if e.Report? then Owed(b, e.report, t) else 0.0
  }

  // What the account was told to charge over a run.
  function OwedTotal(events: seq<Event>, t: Terms): real {
    if events == [] then 0.0
    else
      var before, e := events[..|events| - 1], events[|events| - 1];
      OwedTotal(before, t) + OwedBy(Run(before, t), e, t)
  }

  // The commission of orders of those sizes, and what a floor under each makes of it.
  function Commissions(sizes: seq<nat>, t: Terms): real {
    if sizes == [] then 0.0 else Commissions(sizes[..|sizes| - 1], t) + CommissionOf(t, sizes[|sizes| - 1])
  }

  function Floored(sizes: seq<nat>, t: Terms): real {
    if sizes == [] then 0.0
    else Floored(sizes[..|sizes| - 1], t) + MaxReal(t.floor, CommissionOf(t, sizes[|sizes| - 1]))
  }

  // The floor's bookkeeping against the sizes that ended.
  ghost predicate Settled(c: OrderCounts, owed: real, sizes: seq<nat>, t: Terms) {
    && c.minCommissionPaid == owed
    && Commissions(sizes, t) + c.minCommissionPaid == Floored(sizes, t)
    && c.ordersThatFilled == |sizes| && c.sizes == HistogramOf(sizes)
  }

  lemma StepSettles(b: Books, e: Event, t: Terms, owed: real, sizes: seq<nat>)
    requires Consistent(b, t) && b.counts.sizes.Valid() && Settled(b.counts, owed, sizes, t)
    ensures Settled(Step(b, e, t).counts, owed + OwedBy(b, e, t), sizes + EndedBy(b, e, t), t)
  {
    assert sizes + [] == sizes;
    if e.Report? && e.report.orderId in b.ledger.audits {
      var a := b.ledger.audits[e.report.orderId];
      RecordKeeps(a, e.report, t);
      if e.report.execType.Terminal() && a.filled {
        var more := sizes + [a.filledQuantity];
        assert more[..|more| - 1] == sizes;
      }
    }
  }

  // Over any run, the shortfalls charged are what the account was told to charge, and commission plus
  // shortfalls over the orders that ended filled is the sum of the larger of the floor and the commission;
  // the histogram is that of those orders' sizes.
  lemma {:induction false} FloorIsCollected(events: seq<Event>, t: Terms)
    requires FreshIds(events, t)
    ensures Settled(Run(events, t).counts, OwedTotal(events, t), EndedSizes(events, t), t)
  {
    if events != [] {
      var before := events[..|events| - 1];
      FloorIsCollected(before, t);
      EveryOrderIsAccounted(before, t);
      StepSettles(Run(before, t), events[|events| - 1], t, OwedTotal(before, t), EndedSizes(before, t));
    }
  }

  // On a scale, what an order of that size pays is what the histogram module bills it.
  lemma CommissionAtRate(t: Terms, rate: real, quantity: nat)
    requires t.perUnit > 0.0 && rate == if t.quantityScale > 0.0 then t.perUnit / t.quantityScale else t.perUnit
    ensures CommissionOf(t, quantity) == AtRate(rate, quantity)
  {
    var q, p, s := quantity as real, t.perUnit, t.quantityScale;
    if s > 0.0 {
      assert p / s * s == p && q / s * s == q;
      assert q / s * p == q / s * (p / s * s) == (q / s * s) * (p / s);
    }
  }

  lemma {:induction false} FlooredIsBill(sizes: seq<nat>, t: Terms, rate: real)
    requires t.perUnit > 0.0 && rate == if t.quantityScale > 0.0 then t.perUnit / t.quantityScale else t.perUnit
    ensures Floored(sizes, t) == Bill(t.floor, rate, sizes)
  {
    if sizes != [] {
      FlooredIsBill(sizes[..|sizes| - 1], t, rate);
      CommissionAtRate(t, rate, sizes[|sizes| - 1]);
    }
  }

  // Under a schedule whose breakeven lies on a bucket's boundary, commission plus shortfalls can be read
  // off the reported histogram, provided that no order ended filled with nothing.
  lemma BillIsInTheHistogram(events: seq<Event>, t: Terms, rate: real)
    requires FreshIds(events, t)
    requires t.perUnit > 0.0 && rate == if t.quantityScale > 0.0 then t.perUnit / t.quantityScale else t.perUnit
    requires Straight(t.floor, rate) && rate >= 0.0
    requires forall i :: 0 <= i < |EndedSizes(events, t)| ==> EndedSizes(events, t)[i] > 0
    ensures
      var c := Run(events, t).counts;
      Commissions(EndedSizes(events, t), t) + c.minCommissionPaid == BillFrom(t.floor, rate, c.sizes)
  {
    var sizes := EndedSizes(events, t);
    FloorIsCollected(events, t);
    FlooredIsBill(sizes, t, rate);
    HistogramGivesBill(t.floor, rate, sizes);
  }

  // ----------------------------------------------------------------------------------- cancel requests

  ghost predicate Asks(e: Event, id: nat) {
    e.Cancel? && e.id == id
  }

  ghost predicate Ends(e: Event, id: nat) {
    e.Report? && e.report.execType.Terminal() && e.report.orderId == id
  }

  // A request since the order last ended.
  ghost predicate AskedSince(events: seq<Event>, id: nat) {
    exists i :: 0 <= i < |events| && Asks(events[i], id) && NoEndAfter(events, i, id)
  }

  ghost predicate NoEndAfter(events: seq<Event>, i: int, id: nat) {
    forall j :: 0 <= i < j < |events| ==> !Ends(events[j], id)
  }

  lemma AskedNext(events: seq<Event>, e: Event, id: nat)
    ensures AskedSince(events + [e], id) <==> Asks(e, id) || (AskedSince(events, id) && !Ends(e, id))
  {
    var more := events + [e];
    if Asks(e, id) {
      assert more[|events|] == e && NoEndAfter(more, |events|, id);
    }
    if AskedSince(events, id) && !Ends(e, id) {
      var i :| 0 <= i < |events| && Asks(events[i], id) && NoEndAfter(events, i, id);
      assert more[i] == events[i] && NoEndAfter(more, i, id);
    }
    if AskedSince(more, id) && !Asks(e, id) {
      var i :| 0 <= i < |more| && Asks(more[i], id) && NoEndAfter(more, i, id);
      assert more[|events|] == e && events[i] == more[i];
      assert forall j :: i < j < |events| ==> events[j] == more[j];
      assert NoEndAfter(events, i, id);
    }
  }

  lemma StepPending(b: Books, e: Event, t: Terms, id: nat)
    requires b.counts.sizes.Valid()
    ensures id in Step(b, e, t).ledger.pendingCancels
            <==> Asks(e, id) || (id in b.ledger.pendingCancels && !Ends(e, id))
  {
  }

  // A request is new, which is when BeginCancel answers true, exactly when there was none since the order
  // last ended.
  lemma {:induction false} CancelIsRequestedOnce(events: seq<Event>, t: Terms, id: nat)
    ensures id in Run(events, t).ledger.pendingCancels <==> AskedSince(events, id)
  {
    if events != [] {
      var before, e := events[..|events| - 1], events[|events| - 1];
      CancelIsRequestedOnce(before, t, id);
      StepPending(Run(before, t), e, t, id);
      AskedNext(before, e, id);
      assert before + [e] == events;
    }
  }
}

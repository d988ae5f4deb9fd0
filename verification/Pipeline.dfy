// The coordinator (src/app/pipeline.cpp:41-100, 387-465): how the gate, the reservations, the ledger and the
// account are stepped together by submissions and reports, and the laws that tie them.
module Pipeline {
  import opened Exchange
  import opened InstrumentSpec
  import opened RunSummary
  import opened GateFlow
  import R = RiskPipeline
  import F = FillAccounting
  import L = OrderLedger
  import A = Account
  import M = RunAccounting
  import P = Portfolio

  // What a run is configured with, and never changes.
  datatype Settings = Settings(flow: Config, account: A.Settings, terms: L.Terms)

  // The venue's and the gate's part of the run, the ledger and its counts, and the account.
  datatype Desk = Desk(world: World, books: L.Books, account: A.Account)

  function RejectionOf(id: nat, s: Submission): ExecutionReport {
    ExecutionReport(id, s.order.side.AtVenue(), ExecType.Rejected, s.symbol, s.order.price, s.order.quantity, s.ts,
                    OUR_OWNER, UnknownRole, 0.0)
  }

  // An order that is sent is audited first; one the venue refuses at once ends there, without a report.
  function BooksSubmitted(t: L.Terms, b: L.Books, id: nat, s: Submission, accepted: bool): L.Books
    requires b.counts.sizes.Valid()
  {
    var audited := L.Opened(b, id, s.cycle);
    if accepted then audited else L.Reported(audited, RejectionOf(id, s), s.cycle, t)
  }

  function BooksReported(t: L.Terms, b: L.Books, r: ExecutionReport, cycle: nat, ahead: QueueAhead): L.Books
    requires b.counts.sizes.Valid()
  {
    L.Reported(Rested(b, r, ahead), r, cycle, t)
  }

  function Rested(b: L.Books, r: ExecutionReport, ahead: QueueAhead): (n: L.Books)
    ensures n.counts.sizes == b.counts.sizes
  {
    if r.execType.Resting? then L.MarkedResting(b, r, ahead) else b
  }

  // The account books our executions, and the shortfall of an order that ends under the floor.
  function AccountReported(st: Settings, b: L.Books, a: A.Account, r: ExecutionReport, ahead: QueueAhead): A.Account {
    var booked := if r.Ours() then A.ApplyReport(st.account, a, r) else a;
    var owed := L.Owed(Rested(b, r, ahead), r, st.terms);
    if owed > 0.0 then A.Charged(booked, owed) else booked
  }

  function Step(st: Settings, d: Desk, e: Event): (n: Desk)
    requires d.books.counts.sizes.Valid()
    ensures n.books.counts.sizes.Valid()
    ensures n.world == GateFlow.Step(st.flow, d.world, e)
  {
    Desk(GateFlow.Step(st.flow, d.world, e), BooksAfter(st, d.world, d.books, e),
         if e.Report? then AccountReported(st, d.books, d.account, e.report, e.ahead) else d.account)
  }

  function BooksAfter(st: Settings, w: World, b: L.Books, e: Event): (n: L.Books)
    requires b.counts.sizes.Valid()
    ensures n.counts.sizes.Valid()
  {
    match e
    case CycleStart(netPnl, ts) => b
    case Submit(s, accepted) =>
      if DecisionOn(st.flow, w, s).Refused? then b else BooksSubmitted(st.terms, b, w.nextId, s, accepted)
    case Report(r, cycle, ahead) => BooksReported(st.terms, b, r, cycle, ahead)
    case Cancel(id, ahead) => b.(ledger := L.CancelBegun(b.ledger, id, ahead))
    case Sample(ahead) => b.(ledger := L.Sampled(b.ledger, ahead))
  }

  function Run(st: Settings, limits: R.Limits, events: seq<Event>): (d: Desk)
    ensures d.books.counts.sizes.Valid()
    ensures d.world == GateFlow.Run(st.flow, limits, events)
  {
    if events == [] then Desk(Start(limits), L.Books(L.EMPTY_LEDGER, NO_ORDERS), A.Init(st.account))
    else Step(st, Run(st, limits, events[..|events| - 1]), events[|events| - 1])
  }

  // ------------------------------------------------------------------------------------------ the class

  class Pipeline {
    const risk: R.RiskPipeline
    const fills: F.FillAccounting
    const ledger: L.OrderLedger
    const portfolio: P.Portfolio
    const quality: ExecutionQuality
    const accounting: M.RunAccounting
    const config: Config
    const terms: L.Terms
    var nextOrderId: nat

    ghost predicate Valid()
      reads quality
    {
      && fills.quality == quality && fills.accounting == accounting
      && portfolio.settings.terms.Valid()
      && quality.orders.sizes.Valid()
    }

    ghost function SettingsOf(): Settings {
      Settings(config, portfolio.settings, terms)
    }

    constructor (risk: R.RiskPipeline, fills: F.FillAccounting, ledger: L.OrderLedger, portfolio: P.Portfolio,
                 quality: ExecutionQuality, accounting: M.RunAccounting, config: Config, terms: L.Terms)
      requires fills.quality == quality && fills.accounting == accounting
      requires portfolio.settings.terms.Valid() && quality.orders.sizes.Valid()
      ensures Valid() && nextOrderId == 1
      ensures this.risk == risk && this.fills == fills && this.ledger == ledger && this.portfolio == portfolio
      ensures this.quality == quality && this.accounting == accounting && this.config == config && this.terms == terms
    {
      this.risk, this.fills, this.ledger, this.portfolio := risk, fills, ledger, portfolio;
      this.quality, this.accounting, this.config, this.terms := quality, accounting, config, terms;
      nextOrderId := 1;
    }

    function RiskContext(s: Submission): (c: R.Context)
      reads fills
      ensures c == ContextOf(config, fills.Held(), s)
    {
      R.Context(fills.position, fills.pendingBuyQuantity, fills.pendingSellQuantity, config.quantityScale,
                config.contract, s.quote, s.nowSeconds)
    }

    method SettleOrder(report: ExecutionReport, cycle: nat)
      requires Valid()
      modifies ledger, portfolio, quality`orders
      ensures Valid()
      ensures ledger.Held(quality) == L.Reported(old(ledger.Held(quality)), report, cycle, terms)
      ensures
        var owed := L.Owed(old(ledger.Held(quality)), report, terms);
        portfolio.Book() == if owed > 0.0 then A.Charged(old(portfolio.Book()), owed) else old(portfolio.Book())
    {
      var owed := ledger.OnReport(report, cycle, quality, terms);
      if owed > 0.0 {
        portfolio.ChargeFee(owed);
      }
    }

    // `ahead` is what the venue answers when the ledger asks for the queue at a level.
    method HandleReport(report: ExecutionReport, context: F.FillContext, ahead: QueueAhead)
      requires Valid()
      modifies ledger, portfolio, fills, quality, accounting`pendingMarkouts
      ensures Valid()
      ensures fills.Held() == HoldingsReported(old(fills.Held()), report)
      ensures ledger.Held(quality)
           == BooksReported(terms, old(ledger.Held(quality)), report, context.quoteCycle, ahead)
      ensures portfolio.Book()
           == AccountReported(SettingsOf(), old(ledger.Held(quality)), old(portfolio.Book()), report, ahead)
    {
      if report.execType.Resting? {
        ledger.MarkResting(report, ahead, quality);
      }
      ghost var rested := ledger.Held(quality);
      if report.Ours() {
        portfolio.Apply(report);
      }
      if report.Ours() && report.execType.Trade? {
        fills.Apply(report, context);
      }
      if report.execType.Terminal() {
        fills.ReleaseQuantity(F.AsIntent(report.side), report.Remaining(), true);
      }
      assert ledger.Held(quality) == rested;
      SettleOrder(report, context.quoteCycle);
    }

    // The venue refused the order, so nothing rests and no report will follow for it.
    method HandleRejectedOrder(id: nat, s: Submission)
      requires Valid()
      modifies ledger, portfolio, fills`pendingBuyQuantity, fills`pendingSellQuantity, quality`orders
      ensures Valid()
      ensures fills.Held() == F.Release(old(fills.Held()), s.order.side, s.order.quantity, false)
      ensures ledger.Held(quality) == L.Reported(old(ledger.Held(quality)), RejectionOf(id, s), s.cycle, terms)
      ensures
        var owed := L.Owed(old(ledger.Held(quality)), RejectionOf(id, s), terms);
        portfolio.Book() == if owed > 0.0 then A.Charged(old(portfolio.Book()), owed) else old(portfolio.Book())
    {
      fills.ReleaseQuantity(s.order.side, s.order.quantity, false);
      SettleOrder(RejectionOf(id, s), s.cycle);
    }

    // `accepted` is what the venue answers once it has the order.
    method SubmitOrder(s: Submission, accepted: bool) returns (decision: R.Decision)
      requires Valid()
      modifies this, risk, ledger, portfolio, fills`pendingBuyQuantity, fills`pendingSellQuantity, quality`orders
      ensures Valid()
      ensures decision == R.Decide(old(risk.State()), s.order, ContextOf(config, old(fills.Held()), s))
      ensures risk.State() == R.AfterCheck(old(risk.State()), s.order, ContextOf(config, old(fills.Held()), s))
      ensures
        if decision.Refused?
        then fills.Held() == old(fills.Held()) && nextOrderId == old(nextOrderId)
             && ledger.Held(quality) == old(ledger.Held(quality))
        else fills.Held() == HoldingsSubmitted(old(risk.State()), old(fills.Held()), s.order, accepted)
             && nextOrderId == old(nextOrderId) + 1
             && ledger.Held(quality) == BooksSubmitted(terms, old(ledger.Held(quality)), old(nextOrderId), s, accepted)
      ensures portfolio.Book() == old(portfolio.Book())
    {
      var context := RiskContext(s);
      decision := risk.Check(s.order, context);
      if decision.Refused? {
        return;
      }
      if risk.limits.positionLimit > 0 && s.order.quantity > 0 {
        fills.ReserveQuantity(s.order.side, s.order.quantity);
      }
      var id := nextOrderId;
      nextOrderId := nextOrderId + 1;
      ledger.OpenOrder(id, s.cycle, quality);
      if !accepted {
        HandleRejectedOrder(id, s);
      }
    }
  }

  // -------------------------------------------------------------------------------- what ties the parts

  ghost predicate HonestRun(st: Settings, limits: R.Limits, events: seq<Event>) {
    GateFlow.HonestRun(st.flow, limits, events)
  }

  // Every open audit is a working order of the venue's, and the other way round.
  ghost predicate Matched(d: Desk) {
    && d.books.ledger.audits.Keys == d.world.working.Keys
    && forall id :: id in d.world.working ==> id < d.world.nextId
  }

  lemma OpenedKeys(b: L.Books, id: nat, cycle: nat)
    ensures L.Opened(b, id, cycle).ledger.audits.Keys == b.ledger.audits.Keys + {id}
  {
  }

  lemma ReportedKeys(b: L.Books, r: ExecutionReport, cycle: nat, t: L.Terms)
    requires b.counts.sizes.Valid()
    ensures L.Reported(b, r, cycle, t).ledger.audits.Keys
         == if r.execType.Terminal() then b.ledger.audits.Keys - {r.orderId} else b.ledger.audits.Keys
  {
  }

  lemma RestedKeys(b: L.Books, r: ExecutionReport, ahead: QueueAhead)
    ensures Rested(b, r, ahead).ledger.audits.Keys == b.ledger.audits.Keys
  {
  }

  lemma StepKeepsMatched(st: Settings, d: Desk, e: Event)
    requires d.books.counts.sizes.Valid() && Matched(d) && Honest(d.world, e)
    ensures Matched(Step(st, d, e))
  {
    match e
    case CycleStart(netPnl, ts) =>
    case Submit(s, accepted) =>
      var id := d.world.nextId;
      OpenedKeys(d.books, id, s.cycle);
      ReportedKeys(L.Opened(d.books, id, s.cycle), RejectionOf(id, s), s.cycle, st.terms);
    case Report(r, cycle, ahead) =>
      RestedKeys(d.books, r, ahead);
      ReportedKeys(Rested(d.books, r, ahead), r, cycle, st.terms);
      assert WorkingReported(d.world.working, r).Keys
          == if r.execType.Terminal() then d.world.working.Keys - {r.orderId} else d.world.working.Keys;
    case Cancel(id, ahead) =>
    case Sample(ahead) =>
  }

  // The audit is open exactly while the venue works the order.
  lemma {:induction false} AuditsAreWorkingOrders(st: Settings, limits: R.Limits, events: seq<Event>)
    requires HonestRun(st, limits, events)
    ensures Matched(Run(st, limits, events))
  {
    if events != [] {
      var before := events[..|events| - 1];
      AuditsAreWorkingOrders(st, limits, before);
      StepKeepsMatched(st, Run(st, limits, before), events[|events| - 1]);
    }
  }

  lemma SubmitKeepsConsistent(t: L.Terms, b: L.Books, id: nat, s: Submission, accepted: bool)
    requires b.counts.sizes.Valid() && L.Consistent(b, t) && id !in b.ledger.audits
    ensures L.Consistent(BooksSubmitted(t, b, id, s, accepted), t)
  {
    L.OpenKeepsConsistent(b, id, s.cycle, t);
    L.ReportKeepsConsistent(L.Opened(b, id, s.cycle), RejectionOf(id, s), s.cycle, t);
  }

  lemma ReportKeepsConsistent(t: L.Terms, b: L.Books, r: ExecutionReport, cycle: nat, ahead: QueueAhead)
    requires b.counts.sizes.Valid() && L.Consistent(b, t)
    ensures L.Consistent(BooksReported(t, b, r, cycle, ahead), t)
  {
    L.RestKeepsConsistent(b, r, ahead, t);
    L.ReportKeepsConsistent(Rested(b, r, ahead), r, cycle, t);
  }

  // The ledger's own invariants hold of every run of the whole: the pipeline names each order afresh.
  lemma StepKeepsConsistent(st: Settings, w: World, b: L.Books, e: Event)
    requires b.counts.sizes.Valid() && L.Consistent(b, st.terms) && w.nextId !in b.ledger.audits
    ensures L.Consistent(BooksAfter(st, w, b, e), st.terms)
  {
    match e
    case CycleStart(netPnl, ts) =>
    case Submit(s, accepted) => SubmitKeepsConsistent(st.terms, b, w.nextId, s, accepted);
    case Report(r, cycle, ahead) => ReportKeepsConsistent(st.terms, b, r, cycle, ahead);
    case Cancel(id, ahead) => L.CancelKeepsConsistent(b, id, ahead, st.terms);
    case Sample(ahead) => L.SampleKeepsConsistent(b, ahead, st.terms);
  }

  lemma {:induction false} LedgerIsConsistent(st: Settings, limits: R.Limits, events: seq<Event>)
    requires HonestRun(st, limits, events)
    ensures L.Consistent(Run(st, limits, events).books, st.terms)
  {
    if events != [] {
      var before := events[..|events| - 1];
      LedgerIsConsistent(st, limits, before);
      AuditsAreWorkingOrders(st, limits, before);
      var d := Run(st, limits, before);
      StepKeepsConsistent(st, d.world, d.books, events[|events| - 1]);
    }
  }

  // The fees of our executions over a run.
  function FillFees(events: seq<Event>): real {
    if events == [] then 0.0 else FillFees(events[..|events| - 1]) + FeeOf(events[|events| - 1])
  }

  function FeeOf(e: Event): real {
    if e.Report? && e.report.Ours() && A.Executes(e.report) then e.report.fee else 0.0
  }

  lemma OwedIsCounted(b: L.Books, r: ExecutionReport, cycle: nat, t: L.Terms)
    requires b.counts.sizes.Valid()
    ensures L.Reported(b, r, cycle, t).counts.minCommissionPaid == b.counts.minCommissionPaid + L.Owed(b, r, t)
    ensures L.Owed(b, r, t) >= 0.0
  {
  }

  lemma RestOwesNothing(b: L.Books, r: ExecutionReport, ahead: QueueAhead)
    ensures Rested(b, r, ahead).counts.minCommissionPaid == b.counts.minCommissionPaid
  {
  }

  lemma FeesBooked(st: Settings, a: A.Account, r: ExecutionReport)
    ensures A.ApplyReport(st.account, a, r).feesPaid == a.feesPaid + if A.Executes(r) then r.fee else 0.0
  {
  }

  lemma StepPaysFees(st: Settings, d: Desk, e: Event)
    requires d.books.counts.sizes.Valid()
    ensures
      var n := Step(st, d, e);
      n.account.feesPaid - n.books.counts.minCommissionPaid
        == d.account.feesPaid - d.books.counts.minCommissionPaid + FeeOf(e)
  {
    match e
    case CycleStart(netPnl, ts) =>
    case Submit(s, accepted) =>
      var id := d.world.nextId;
      OwedIsCounted(L.Opened(d.books, id, s.cycle), RejectionOf(id, s), s.cycle, st.terms);
    case Report(r, cycle, ahead) =>
      RestOwesNothing(d.books, r, ahead);
      OwedIsCounted(Rested(d.books, r, ahead), r, cycle, st.terms);
      FeesBooked(st, d.account, r);
    case _ =>
  }

  // What the account paid is what our executions were charged plus the shortfalls the ledger reports.
  lemma {:induction false} FeesAgree(st: Settings, limits: R.Limits, events: seq<Event>)
    ensures
      var d := Run(st, limits, events);
      d.account.feesPaid == FillFees(events) + d.books.counts.minCommissionPaid
  {
    if events != [] {
      var before := events[..|events| - 1];
      FeesAgree(st, limits, before);
      StepPaysFees(st, Run(st, limits, before), events[|events| - 1]);
    }
  }

  // Our reports are all about one instrument.
  ghost predicate OneSymbol(symbol: string, events: seq<Event>) {
    forall i :: 0 <= i < |events| && events[i].Report? && events[i].report.Ours() ==> events[i].report.symbol == symbol
  }

  lemma FillQuantity(st: Settings, a: A.Account, r: ExecutionReport)
    ensures A.PositionOf(A.ApplyReport(st.account, a, r), r.symbol).quantity
         == A.PositionOf(a, r.symbol).quantity + r.side.Sign() * r.Executed()
  {
  }

  lemma ReportMovesPosition(h: F.Holdings, r: ExecutionReport)
    ensures HoldingsReported(h, r).position
         == h.position + if r.Ours() then r.side.Sign() * r.Executed() else 0
  {
  }

  lemma SubmitKeepsPosition(g: R.Gate, h: F.Holdings, o: R.Order, accepted: bool)
    ensures HoldingsSubmitted(g, h, o, accepted).position == h.position
  {
  }

  lemma StepKeepsPositions(st: Settings, d: Desk, e: Event, symbol: string)
    requires d.books.counts.sizes.Valid()
    requires e.Report? && e.report.Ours() ==> e.report.symbol == symbol
    requires A.PositionOf(d.account, symbol).quantity == d.world.holdings.position
    ensures
      var n := Step(st, d, e);
      A.PositionOf(n.account, symbol).quantity == n.world.holdings.position
  {
    match e
    case CycleStart(netPnl, ts) =>
    case Submit(s, accepted) => SubmitKeepsPosition(d.world.gate, d.world.holdings, s.order, accepted);
    case Report(r, cycle, ahead) =>
      ReportMovesPosition(d.world.holdings, r);
      FillQuantity(st, d.account, r);
    case _ =>
  }

  // The position the gate limits is the position the account values.
  lemma {:induction false} PositionsAgree(st: Settings, limits: R.Limits, events: seq<Event>, symbol: string)
    requires OneSymbol(symbol, events)
    ensures
      var d := Run(st, limits, events);
      A.PositionOf(d.account, symbol).quantity == d.world.holdings.position
  {
    if events != [] {
      var before := events[..|events| - 1];
      PositionsAgree(st, limits, before, symbol);
      StepKeepsPositions(st, Run(st, limits, before), events[|events| - 1], symbol);
    }
  }
}

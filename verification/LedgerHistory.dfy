// The ledger's counts read off the events alone (src/app/order_ledger.cpp:167-178, 243-368): which orders are
// open, what they traded, and how each one ended, without the ledger's own entries.
module LedgerHistory {
  import opened Exchange
  import opened Options
  import opened RunSummary
  import opened OrderLedger

  // The cycle an order was opened at, until a report ends it.
  function OpenSince(events: seq<Event>, id: nat): Option<nat> {
    if events == [] then None
    else
      var before, e := events[..|events| - 1], events[|events| - 1];
      if e.Open? && e.id == id then Some(e.cycle)
      else if e.Report? && e.report.orderId == id
              && (e.report.execType.Filled? || e.report.execType.Cancelled? || e.report.execType.Rejected?) then None
      else OpenSince(before, id)
  }

  // The quantities of the Trade reports for an order since it was opened.
  function TradesSince(events: seq<Event>, id: nat): seq<nat> {
    if events == [] then []
    else
      var before, e := events[..|events| - 1], events[|events| - 1];
      if e.Open? && e.id == id then []
      else if e.Report? && e.report.orderId == id && e.report.execType.Trade?
      then TradesSince(before, id) + [e.report.quantity]
      else TradesSince(before, id)
  }

  function Total(quantities: seq<nat>): nat {
    if quantities == [] then 0 else Total(quantities[..|quantities| - 1]) + quantities[|quantities| - 1]
  }

  // An entry is there exactly while its order is open, and holds its opening cycle and its trades.
  ghost predicate EntryHolds(l: Ledger, id: nat, since: Option<nat>, trades: seq<nat>) {
    && (id in l.audits <==> since.Some?) && (id in l.starts <==> since.Some?)
    && (id in l.audits ==>
          && l.audits[id].startCycle == since.value && l.starts[id] == since.value
          && l.audits[id].filled == (trades != []) && l.audits[id].filledQuantity == Total(trades))
  }

  lemma TotalNext(quantities: seq<nat>, q: nat)
    ensures Total(quantities + [q]) == Total(quantities) + q
  {
    assert (quantities + [q])[..|quantities|] == quantities;
  }

  lemma OtherReports(b: Books, r: ExecutionReport, cycle: nat, t: Terms, id: nat)
    requires b.counts.sizes.Valid() && r.orderId != id
    ensures
      var l, n := b.ledger, Reported(b, r, cycle, t).ledger;
      && (id in n.audits <==> id in l.audits) && (id in n.starts <==> id in l.starts)
      && (id in l.audits ==> n.audits[id] == l.audits[id]) && (id in l.starts ==> n.starts[id] == l.starts[id])
  {
  }

  lemma OwnReport(b: Books, r: ExecutionReport, cycle: nat, t: Terms, since: Option<nat>, trades: seq<nat>)
    requires b.counts.sizes.Valid() && EntryHolds(b.ledger, r.orderId, since, trades)
    ensures EntryHolds(Reported(b, r, cycle, t).ledger, r.orderId, if r.execType.Terminal() then None else since,
                       if r.execType.Trade? then trades + [r.quantity] else trades)
  {
    TotalNext(trades, r.quantity);
  }

  lemma StepKeepsEntry(b: Books, e: Event, t: Terms, id: nat, since: Option<nat>, trades: seq<nat>,
                       newSince: Option<nat>, newTrades: seq<nat>)
    requires b.counts.sizes.Valid() && EntryHolds(b.ledger, id, since, trades)
    requires newSince == if e.Open? && e.id == id then Some(e.cycle) else if Ends(e, id) then None else since
    requires newTrades == if e.Open? && e.id == id then []
                          else if e.Report? && e.report.orderId == id && e.report.execType.Trade?
                          then trades + [e.report.quantity] else trades
    ensures EntryHolds(Step(b, e, t).ledger, id, newSince, newTrades)
  {
    if e.Report? {
      if e.report.orderId == id {
        OwnReport(b, e.report, e.cycle, t, since, trades);
      } else {
        OtherReports(b, e.report, e.cycle, t, id);
      }
    }
  }

  lemma {:induction false} EntryIsHistory(events: seq<Event>, t: Terms, id: nat)
    ensures EntryHolds(Run(events, t).ledger, id, OpenSince(events, id), TradesSince(events, id))
  {
    if events != [] {
      var before, e := events[..|events| - 1], events[|events| - 1];
      EntryIsHistory(before, t, id);
      StepKeepsEntry(Run(before, t), e, t, id, OpenSince(before, id), TradesSince(before, id), OpenSince(events, id),
                     TradesSince(events, id));
    }
  }

  // How the orders of a run ended, and how long they took.
  datatype Tally = Tally(
    begun: nat,
    filled: nat,
    cancelledUntouched: nat,
    cancelledTraded: nat,
    rejected: nat,
    traded: nat,
    cycles: nat,
    longest: nat,
    orphans: nat,
    longestWait: nat,
    longestWaitId: nat,
    firstFillId: nat)

  const NO_TALLY := Tally(0, 0, 0, 0, 0, 0, 0, 0, 0, 0, 0, 0)

  function Waited(since: nat, cycle: nat): nat {
    if cycle >= since then cycle - since else 0
  }

  // One report against an order opened at `since` that traded or did not: a report that ends it counts under
  // its own kind, with the cycles it took; any other leaves the endings as they are.
  function TallyEnd(t: Tally, r: ExecutionReport, cycle: nat, since: nat, traded: bool): Tally {
    var took := Waited(since, cycle);
    var ended :=
      t.(cycles := t.cycles + took, longest := if took > t.longest then took else t.longest,
         traded := t.traded + (if traded then 1 else 0),
         longestWait := if traded && took > t.longestWait then took else t.longestWait,
         longestWaitId := if traded && took > t.longestWait then r.orderId else t.longestWaitId);
    match r.execType
    case Filled => ended.(filled := t.filled + 1)
    case Rejected => ended.(rejected := t.rejected + 1)
    case Cancelled =>
      if traded then ended.(cancelledTraded := t.cancelledTraded + 1)
      else ended.(cancelledUntouched := t.cancelledUntouched + 1)
    case _ => t
  }

  function TallyReport(t: Tally, r: ExecutionReport, cycle: nat, since: Option<nat>, traded: bool): Tally {
    var n := if since.Some? then TallyEnd(t, r, cycle, since.value, traded)
             else if r.owner == "MarketMaker" then t.(orphans := t.orphans + 1)
             else t;
    if r.execType.Trade? && r.owner == "MarketMaker" && t.firstFillId == 0 then n.(firstFillId := r.orderId) else n
  }

  function Tallied(events: seq<Event>): Tally {
    if events == [] then NO_TALLY
    else
      var before, e := events[..|events| - 1], events[|events| - 1];
      var t := Tallied(before);
      match e
      case Open(id, cycle) => t.(begun := t.begun + 1)
      case Report(r, cycle) => TallyReport(t, r, cycle, OpenSince(before, r.orderId), TradesSince(before, r.orderId) != [])
      case _ => t
  }

  ghost predicate CountsAre(b: Books, t: Tally) {
    EndingsAre(b.counts, t) && WaitsAre(b.counts, b.ledger, t)
  }

  ghost predicate EndingsAre(c: OrderCounts, t: Tally) {
    && c.audited == t.begun && c.filled == t.filled && c.rejected == t.rejected
    && c.cancelled == t.cancelledUntouched + t.cancelledTraded
    && c.cancelledBeforeFill == t.cancelledUntouched && c.cancelledAfterFill == t.cancelledTraded
    && c.ordersThatFilled == t.traded && c.orphans == t.orphans
  }

  ghost predicate WaitsAre(c: OrderCounts, l: Ledger, t: Tally) {
    && c.orderLifetime == t.cycles && c.quoteLifetime == t.cycles && c.maxQuoteLifetime == t.longest
    && l.longestWaitCycles == t.longestWait && l.longestWaitId == t.longestWaitId && l.firstFillId == t.firstFillId
  }

  lemma ReportKeepsEndings(b: Books, r: ExecutionReport, cycle: nat, terms: Terms, t: Tally, since: Option<nat>,
                           trades: seq<nat>)
    requires b.counts.sizes.Valid() && EndingsAre(b.counts, t) && EntryHolds(b.ledger, r.orderId, since, trades)
    ensures EndingsAre(Reported(b, r, cycle, terms).counts, TallyReport(t, r, cycle, since, trades != []))
  {
  }

  lemma ReportKeepsWaits(b: Books, r: ExecutionReport, cycle: nat, terms: Terms, t: Tally, since: Option<nat>,
                         trades: seq<nat>)
    requires b.counts.sizes.Valid() && WaitsAre(b.counts, b.ledger, t)
    requires EntryHolds(b.ledger, r.orderId, since, trades)
    ensures
      var n := Reported(b, r, cycle, terms);
      WaitsAre(n.counts, n.ledger, TallyReport(t, r, cycle, since, trades != []))
  {
  }

  // After any run, however its reports are ordered, the ledger's counts are those of its history.
  lemma {:induction false} CountsAreHistory(events: seq<Event>, terms: Terms)
    ensures CountsAre(Run(events, terms), Tallied(events))
  {
    if events != [] {
      var before, e := events[..|events| - 1], events[|events| - 1];
      CountsAreHistory(before, terms);
      if e.Report? {
        var id := e.report.orderId;
        EntryIsHistory(before, terms, id);
        ReportKeepsEndings(Run(before, terms), e.report, e.cycle, terms, Tallied(before), OpenSince(before, id),
                           TradesSince(before, id));
        ReportKeepsWaits(Run(before, terms), e.report, e.cycle, terms, Tallied(before), OpenSince(before, id),
                         TradesSince(before, id));
      }
    }
  }

  // What the orders that ended after trading had traded, in the order of their ends.
  function EndedTotals(events: seq<Event>): seq<nat> {
    if events == [] then []
    else
      var before, e := events[..|events| - 1], events[|events| - 1];
      EndedTotals(before) +
        if e.Report? && (e.report.execType.Filled? || e.report.execType.Cancelled? || e.report.execType.Rejected?)
           && OpenSince(before, e.report.orderId).Some? && TradesSince(before, e.report.orderId) != []
        then [Total(TradesSince(before, e.report.orderId))]
        else []
  }

  // The sizes that the floor and the histogram are about are those.
  lemma {:induction false} EndedSizesAreHistory(events: seq<Event>, t: Terms)
    ensures EndedSizes(events, t) == EndedTotals(events)
  {
    if events != [] {
      var before, e := events[..|events| - 1], events[|events| - 1];
      EndedSizesAreHistory(before, t);
      if e.Report? {
        EntryIsHistory(before, t, e.report.orderId);
      }
    }
  }

  // The commission of a quantity: the rate for each unit, and a scale is how many make one.
  lemma CommissionIsARate(t: Terms, quantity: nat)
    ensures t.perUnit > 0.0 && t.quantityScale > 0.0 ==>
              CommissionOf(t, quantity) * t.quantityScale == t.perUnit * quantity as real
    ensures t.perUnit > 0.0 && t.quantityScale <= 0.0 ==> CommissionOf(t, quantity) == t.perUnit * quantity as real
    ensures t.perUnit <= 0.0 ==> CommissionOf(t, quantity) == 0.0
  {
    if t.perUnit > 0.0 && t.quantityScale > 0.0 {
      var units := quantity as real / t.quantityScale;
      assert units * t.quantityScale == quantity as real;
      assert units * t.perUnit * t.quantityScale == t.perUnit * (units * t.quantityScale);
    }
  }
}

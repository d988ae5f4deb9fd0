// What the ledger says of the queues that orders waited in (src/app/order_ledger.cpp:180-225, 312-321,
// 355-366): two fractions for each order that rested behind a queue and ended.
module QueueProfile {
  import opened Exchange
  import opened Options
  import opened RunSummary
  import opened OrderLedger

  // ------------------------------------------------------------------------- the fractions of a run

  function Zeros(s: seq<real>): nat {
    if s == [] then 0 else Zeros(s[..|s| - 1]) + if s[|s| - 1] == 0.0 then 1 else 0
  }

  ghost predicate Fractions(s: seq<real>) {
    forall i :: 0 <= i < |s| ==> 0.0 <= s[i] <= 1.0
  }

  // Two fractions an order, the nearest one a part of the whole, and a count of those that reached the front.
  ghost predicate GoodProfile(p: Profile) {
    |p.least| == |p.atEnd| == p.orders && p.reachedFront == Zeros(p.least) && Fractions(p.least)
  }

  // A queue is known only past Pending, the least of it is no more than it was, and who filled was in front.
  ghost predicate GoodMark(a: Audit) {
    && (a.state.Pending? ==> !a.filled && a.queue.None?)
    && (a.queue.Some? ==> a.queue.value.least <= a.queue.value.atRest && (a.filled ==> a.queue.value.least == 0))
  }

  ghost predicate GoodMarks(l: Ledger) {
    GoodProfile(l.profile) && forall id :: id in l.audits ==> GoodMark(l.audits[id])
  }

  lemma PartInRange(part: nat, whole: nat)
    requires whole > 0
    ensures 0.0 <= part as real / whole as real
    ensures part <= whole ==> part as real / whole as real <= 1.0
    ensures part as real / whole as real == 0.0 <==> part == 0
  {
    var x := part as real / whole as real;
    assert x * whole as real == part as real;
  }

  lemma ProfiledStaysGood(p: Profile, q: Option<QueueMark>)
    requires GoodProfile(p) && (q.Some? ==> q.value.least <= q.value.atRest)
    ensures GoodProfile(Profiled(p, q))
  {
    if q.Some? && q.value.atRest > 0 {
      PartInRange(q.value.least, q.value.atRest);
      var more := Profiled(p, q).least;
      assert more[..|more| - 1] == p.least;
    }
  }

  // The trades that the ledger hears of for an open order are of ours.
  ghost predicate OurTrade(b: Books, e: Event) {
    e.Report? && e.report.execType.Trade? && e.report.orderId in b.ledger.audits ==> e.report.Ours()
  }

  ghost predicate OurTrades(events: seq<Event>, t: Terms) {
    events != [] ==>
      var before, e := events[..|events| - 1], events[|events| - 1];
      OurTrades(before, t) && OurTrade(Run(before, t), e)
  }

  lemma RecordKeepsMark(a: Audit, r: ExecutionReport, t: Terms)
    requires GoodMark(a) && (r.execType.Trade? ==> r.Ours())
    ensures GoodMark(Recorded(a, r, t))
  {
  }

  lemma ReportKeepsMarks(b: Books, r: ExecutionReport, cycle: nat, t: Terms)
    requires b.counts.sizes.Valid() && GoodMarks(b.ledger) && OurTrade(b, Report(r, cycle))
    ensures GoodMarks(Reported(b, r, cycle, t).ledger)
  {
    if r.orderId in b.ledger.audits {
      var a := b.ledger.audits[r.orderId];
      RecordKeepsMark(a, r, t);
      ProfiledStaysGood(b.ledger.profile, Recorded(a, r, t).queue);
      OneEntryMoves(b, r, cycle, t);
    }
  }

  // A report touches its own entry and, when it ends the order, the profile.
  lemma OneEntryMoves(b: Books, r: ExecutionReport, cycle: nat, t: Terms)
    requires b.counts.sizes.Valid() && r.orderId in b.ledger.audits
    ensures
      var l, n, a := b.ledger, Reported(b, r, cycle, t).ledger, Recorded(b.ledger.audits[r.orderId], r, t);
      && n.profile == (if r.execType.Terminal() then Profiled(l.profile, a.queue) else l.profile)
      && n.audits == (if r.execType.Terminal() then l.audits - {r.orderId} else l.audits[r.orderId := a])
  {
  }

  lemma StepKeepsMarks(b: Books, e: Event, t: Terms)
    requires b.counts.sizes.Valid() && GoodMarks(b.ledger) && OurTrade(b, e)
    ensures GoodMarks(Step(b, e, t).ledger)
  {
    if e.Report? {
      ReportKeepsMarks(b, e.report, e.cycle, t);
    }
  }

  // In every run the profile is sound: as many fractions as orders, the nearest ones between zero and one,
  // and the count of orders that reached the front the count of their zeros.
  lemma {:induction false} ProfileIsSound(events: seq<Event>, t: Terms)
    requires OurTrades(events, t)
    ensures GoodMarks(Run(events, t).ledger)
  {
    if events != [] {
      var before := events[..|events| - 1];
      ProfileIsSound(before, t);
      StepKeepsMarks(Run(before, t), events[|events| - 1], t);
    }
  }

  // -------------------------------------------------------------------- what was seen while it rested

  // A resting order's level, and the queues that were seen ahead of it there: the one it joined, one at each
  // look, and none when it traded.
  datatype Watch = Watch(level: PriceLevel, seen: seq<nat>)

  function Reading(ahead: QueueAhead, level: PriceLevel): nat {
    if level in ahead then ahead[level] else 0
  }

  function WatchAfter(l: Ledger, e: Event, id: nat, w: Option<Watch>): Option<Watch> {
    match e
    case Open(opening, cycle) => if opening == id then None else w
    case Rest(r, ahead) =>
      if r.orderId == id && id in l.audits && l.audits[id].state.Pending?
      then Some(Watch(PriceLevel(r.symbol, r.side, r.price), [Reading(ahead, PriceLevel(r.symbol, r.side, r.price))]))
      else w
    case Report(r, cycle) =>
      if r.orderId != id then w
      else if r.execType.Filled? || r.execType.Cancelled? || r.execType.Rejected? then None
      else if r.execType.Trade? && r.owner == "MarketMaker" && w.Some? then Some(w.value.(seen := w.value.seen + [0]))
      else w
    case Sample(ahead) =>
      if w.Some? then Some(w.value.(seen := w.value.seen + [Reading(ahead, w.value.level)])) else w
    case Cancel(asked, ahead) => w
  }

  ghost function Watched(events: seq<Event>, t: Terms, id: nat): Option<Watch> {
    if events == [] then None
    else
      var before, e := events[..|events| - 1], events[|events| - 1];
      WatchAfter(Run(before, t).ledger, e, id, Watched(before, t, id))
  }

  ghost predicate IsLeast(least: nat, seen: seq<nat>) {
    least in seen && forall i :: 0 <= i < |seen| ==> least <= seen[i]
  }

  // The entry has a queue exactly while there is something seen: the first of it and the least.
  ghost predicate Keeps(l: Ledger, id: nat, w: Option<Watch>) {
    && (w.Some? ==> id in l.audits && w.value.seen != [])
    && (id in l.audits ==>
          && (l.audits[id].state.Pending? ==> w.None?)
          && match l.audits[id].queue
             case None => w.None?
             case Some(q) =>
               w.Some? && q.level == w.value.level && q.atRest == w.value.seen[0] && IsLeast(q.least, w.value.seen))
  }

  lemma LeastOfMore(least: nat, seen: seq<nat>, more: nat)
    requires IsLeast(least, seen)
    ensures IsLeast(if more < least then more else least, seen + [more])
  {
    var all := seen + [more];
    assert all[|seen|] == more;
  }

  lemma ReportKeepsWatch(b: Books, r: ExecutionReport, cycle: nat, t: Terms, id: nat, w: Option<Watch>)
    requires b.counts.sizes.Valid() && Keeps(b.ledger, id, w)
    ensures Keeps(Reported(b, r, cycle, t).ledger, id, WatchAfter(b.ledger, Report(r, cycle), id, w))
  {
    if r.orderId == id && w.Some? {
      LeastOfMore(b.ledger.audits[id].queue.value.least, w.value.seen, 0);
    }
  }

  lemma SampleKeepsWatch(l: Ledger, ahead: QueueAhead, id: nat, w: Option<Watch>)
    requires Keeps(l, id, w)
    ensures Keeps(Sampled(l, ahead), id, WatchAfter(l, Sample(ahead), id, w))
  {
    if w.Some? {
      var q := l.audits[id].queue.value;
      LeastOfMore(q.least, w.value.seen, Reading(ahead, q.level));
    }
  }

  lemma StepKeepsWatch(b: Books, e: Event, t: Terms, id: nat, w: Option<Watch>)
    requires b.counts.sizes.Valid() && Keeps(b.ledger, id, w)
    ensures Keeps(Step(b, e, t).ledger, id, WatchAfter(b.ledger, e, id, w))
  {
    match e
    case Report(r, cycle) => ReportKeepsWatch(b, r, cycle, t, id, w);
    case Sample(ahead) => SampleKeepsWatch(b.ledger, ahead, id, w);
    case _ =>
  }

  // In every run a resting order's entry holds the queue that it joined at its level and the least of those
  // seen ahead of it since.
  lemma {:induction false} LeastIsSeen(events: seq<Event>, t: Terms, id: nat)
    ensures Keeps(Run(events, t).ledger, id, Watched(events, t, id))
  {
    if events != [] {
      var before, e := events[..|events| - 1], events[|events| - 1];
      LeastIsSeen(before, t, id);
      StepKeepsWatch(Run(before, t), e, t, id, Watched(before, t, id));
    }
  }

  // --------------------------------------------------------------------- what an order leaves at its end

  // An order that ends after it rested behind a queue.
  ghost predicate Leaves(b: Books, r: ExecutionReport) {
    && r.execType.Terminal() && r.orderId in b.ledger.audits
    && var q := b.ledger.audits[r.orderId].queue; q.Some? && q.value.atRest > 0
  }

  lemma LeavingAdds(events: seq<Event>, r: ExecutionReport, cycle: nat, t: Terms, mark: QueueMark)
    requires Leaves(Run(events, t), r) && Some(mark) == Run(events, t).ledger.audits[r.orderId].queue
    ensures Run(events + [Report(r, cycle)], t).ledger.profile == Profiled(Run(events, t).ledger.profile, Some(mark))
  {
    assert (events + [Report(r, cycle)])[..|events|] == events;
  }

  ghost predicate IsFraction(x: real, part: nat, whole: nat) {
    x * whole as real == part as real
  }

  // One more fraction, of the queue an order joined.
  ghost predicate Adds(before: seq<real>, after: seq<real>, part: nat, whole: nat) {
    |after| == |before| + 1 && after[..|before|] == before && IsFraction(after[|before|], part, whole)
  }

  lemma ProfiledAdds(p: Profile, mark: QueueMark)
    requires mark.atRest > 0
    ensures Adds(p.least, Profiled(p, Some(mark)).least, mark.least, mark.atRest)
    ensures Adds(p.atEnd, Profiled(p, Some(mark)).atEnd, mark.atEnd, mark.atRest)
  {
  }

  // An order that leaves adds two fractions of the queue it joined: the least seen, and what was down as its
  // end.
  lemma FractionsAreAdded(events: seq<Event>, r: ExecutionReport, cycle: nat, t: Terms, mark: QueueMark)
    requires Leaves(Run(events, t), r) && Some(mark) == Run(events, t).ledger.audits[r.orderId].queue
    ensures
      var p, q := Run(events, t).ledger.profile, Run(events + [Report(r, cycle)], t).ledger.profile;
      Adds(p.least, q.least, mark.least, mark.atRest) && Adds(p.atEnd, q.atEnd, mark.atEnd, mark.atRest)
  {
    LeavingAdds(events, r, cycle, t, mark);
    ProfiledAdds(Run(events, t).ledger.profile, mark);
  }

  // Its two fractions are added, and an order that filled was at the front both times.
  lemma FilledReachedTheFront(events: seq<Event>, r: ExecutionReport, cycle: nat, t: Terms)
    requires OurTrades(events, t) && Leaves(Run(events, t), r)
    ensures
      var p, q := Run(events, t).ledger.profile, Run(events + [Report(r, cycle)], t).ledger.profile;
      && q.orders == p.orders + 1 && |q.least| == |q.atEnd| == |p.least| + 1
      && (Run(events, t).ledger.audits[r.orderId].filled ==>
            q.least == p.least + [0.0] && q.reachedFront == p.reachedFront + 1)
  {
    ProfileIsSound(events, t);
    var mark := Run(events, t).ledger.audits[r.orderId].queue.value;
    LeavingAdds(events, r, cycle, t, mark);
    PartInRange(mark.least, mark.atRest);
  }

  // The order is opened, or rests.
  ghost predicate Restarts(l: Ledger, e: Event, id: nat) {
    || (e.Open? && e.id == id)
    || (e.Rest? && e.resting.orderId == id && id in l.audits && l.audits[id].state.Pending?)
  }

  // The first request to cancel an order that rests.
  ghost predicate Reads(l: Ledger, e: Event, id: nat) {
    e.Cancel? && e.id == id && id !in l.pendingCancels && id in l.audits && l.audits[id].queue.Some?
  }

  // The queue read when the order was last asked to cancel since it rested, if it was.
  ghost function AskedReading(events: seq<Event>, t: Terms, id: nat): Option<nat> {
    if events == [] then None
    else
      var before, e := events[..|events| - 1], events[|events| - 1];
      var l := Run(before, t).ledger;
      if Restarts(l, e, id) then None
      else if Reads(l, e, id) then Some(AheadAt(e.ahead, l.audits[id].queue.value.level))
      else AskedReading(before, t, id)
  }

  function OrZero(q: Option<nat>): nat {
    if q.Some? then q.value else 0
  }

  // What an open order that rested and did not trade has down as its end.
  ghost predicate EndIs(b: Books, id: nat, reading: Option<nat>) {
    id in b.ledger.audits && b.ledger.audits[id].queue.Some? && !b.ledger.audits[id].filled ==>
      b.ledger.audits[id].queue.value.atEnd == OrZero(reading)
  }

  lemma ReportKeepsEnd(b: Books, r: ExecutionReport, cycle: nat, t: Terms, id: nat, reading: Option<nat>)
    requires b.counts.sizes.Valid() && EndIs(b, id, reading)
    ensures EndIs(Reported(b, r, cycle, t), id, reading)
  {
  }

  lemma StepKeepsEnd(b: Books, e: Event, t: Terms, id: nat, reading: Option<nat>)
    requires b.counts.sizes.Valid() && EndIs(b, id, reading)
    ensures
      var next := if Restarts(b.ledger, e, id) then None
                  else if Reads(b.ledger, e, id) then Some(AheadAt(e.ahead, b.ledger.audits[id].queue.value.level))
                  else reading;
      EndIs(Step(b, e, t), id, next)
  {
    if e.Report? {
      ReportKeepsEnd(b, e.report, e.cycle, t, id, reading);
    }
  }

  lemma {:induction false} EndIsTheReading(events: seq<Event>, t: Terms, id: nat)
    ensures EndIs(Run(events, t), id, AskedReading(events, t, id))
  {
    if events != [] {
      var before := events[..|events| - 1];
      EndIsTheReading(before, t, id);
      StepKeepsEnd(Run(before, t), events[|events| - 1], t, id, AskedReading(before, t, id));
    }
  }

  // A zero at the end is meant to say that the order filled (src/app/run_summary.h:406-410). An order that
  // never traded leaves one too if and only if it was not asked to cancel since it rested, or the queue had
  // gone by then.
  lemma ZeroWithoutAFill(events: seq<Event>, r: ExecutionReport, cycle: nat, t: Terms)
    requires Leaves(Run(events, t), r) && !Run(events, t).ledger.audits[r.orderId].filled
    ensures
      var p, q := Run(events, t).ledger.profile, Run(events + [Report(r, cycle)], t).ledger.profile;
      var asked := AskedReading(events, t, r.orderId);
      && |q.atEnd| == |p.atEnd| + 1
      && (q.atEnd[|p.atEnd|] == 0.0 <==> asked.None? || asked.value == 0)
  {
    EndIsTheReading(events, t, r.orderId);
    var mark := Run(events, t).ledger.audits[r.orderId].queue.value;
    LeavingAdds(events, r, cycle, t, mark);
    PartInRange(mark.atEnd, mark.atRest);
  }
}

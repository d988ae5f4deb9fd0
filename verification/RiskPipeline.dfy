// The pre-trade controls in the order they run (src/app/risk_pipeline.h, risk_pipeline.cpp): a latch, a
// price band, a token bucket, an exposure cap and a position gate.
module RiskPipeline {
  import opened Exchange
  import opened InstrumentSpec
  import opened Options

  datatype Limits = Limits(
    positionLimit: int,
    maxExposureUsd: real,
    killSwitchLossUsd: real,
    fatFingerBps: real,
    maxOrdersPerSecond: real,
    orderBurst: nat)
  {
    // The bucket's size in tokens.
    function Burst(): (b: real)
      ensures b >= 1.0
    {
      if orderBurst > 1 then orderBurst as real else 1.0
    }
  }

  datatype Quote = Quote(bid: real, ask: real)

  datatype Order = Order(side: Intent, price: real, quantity: nat)

  datatype Context = Context(
    position: int,
    pendingBuy: int,
    pendingSell: int,
    quantityScale: nat,
    contract: Contract,
    quote: Option<Quote>,
    nowSeconds: real)

  datatype Reason = KillSwitch | FatFinger | RateLimit | Exposure | Position

  datatype Decision = Allowed | Refused(reason: Reason)

  datatype Bucket = Bucket(tokens: real, lastTime: real, initialized: bool)

  // How many orders each control refused.
  datatype Refusals = Refusals(killSwitch: nat, fatFinger: nat, rateLimit: nat, exposure: nat, position: nat) {
    function Plus(reason: Reason): Refusals {
      match reason
      case KillSwitch => this.(killSwitch := killSwitch + 1)
      case FatFinger => this.(fatFinger := fatFinger + 1)
      case RateLimit => this.(rateLimit := rateLimit + 1)
      case Exposure => this.(exposure := exposure + 1)
      case Position => this.(position := position + 1)
    }
  }

  datatype Gate = Gate(
    limits: Limits,
    triggered: bool,
    triggeredTs: nat,
    refusals: Refusals,
    bucket: Bucket)

  // The slack the bucket's comparison allows for rounding.
  const EPSILON := 0.000000000001

  // The position if everything reserved fills, before and after the order.
  function Current(c: Context): int {
    c.position + c.pendingBuy - c.pendingSell
  }

  function Projected(o: Order, c: Context): int {
    if o.side.Buying? then Current(c) + o.quantity else Current(c) - o.quantity
  }

  // A reducing order leaves the projection strictly closer to zero.
  predicate Reducing(o: Order, c: Context) {
    AbsInt(Projected(o, c)) < AbsInt(Current(c))
  }

  predicate AddsRisk(o: Order, c: Context) {
    o.quantity != 0 && !Reducing(o, c)
  }

  // --------------------------------------------------------------------------------------- the controls

  // Both sides quoted, and the price further from their middle than the band.
  predicate TooFar(l: Limits, o: Order, c: Context) {
    && l.fatFingerBps > 0.0 && o.quantity != 0 && o.price > 0.0
    && c.quote.Some? && c.quote.value.bid > 0.0 && c.quote.value.ask > 0.0
    && var mid := (c.quote.value.bid + c.quote.value.ask) / 2.0;
       AbsReal(o.price - mid) / mid * 10000.0 > l.fatFingerBps
  }

  predicate NeedsToken(l: Limits, o: Order, c: Context) {
    l.maxOrdersPerSecond > 0.0 && AddsRisk(o, c)
  }

  // The tokens that `elapsed` seconds earn.
  function Earned(elapsed: real, rate: real): real {
    elapsed * rate
  }

  function Refill(l: Limits, b: Bucket, now: real): Bucket {
    if !b.initialized then Bucket(l.Burst(), now, true)
    else if now > b.lastTime then
      Bucket(MinReal(l.Burst(), b.tokens + Earned(now - b.lastTime, l.maxOrdersPerSecond)), now, true)
    else b
  }

  predicate HasToken(b: Bucket) {
    b.tokens + EPSILON >= 1.0
  }

  function Take(b: Bucket): Bucket {
    if HasToken(b) then b.(tokens := MaxReal(0.0, b.tokens - 1.0)) else b
  }

  function ExposureAt(o: Order, c: Context): real {
    var scale := if c.quantityScale > 1 then c.quantityScale else 1;
    AbsInt(Projected(o, c)) as real / scale as real * UnitNotionalAt(c.contract, o.price)
  }

  predicate OverExposed(l: Limits, o: Order, c: Context) {
    l.maxExposureUsd > 0.0 && AddsRisk(o, c) && ExposureAt(o, c) > l.maxExposureUsd
  }

  predicate OverPosition(l: Limits, o: Order, c: Context) {
    l.positionLimit > 0 && AddsRisk(o, c) && AbsInt(Projected(o, c)) > l.positionLimit
  }

  // --------------------------------------------------------------------------------- one order through

  // Reaching the bucket leaves it refilled and, when it holds one, a token poorer.
  predicate ReachesBucket(g: Gate, o: Order, c: Context) {
    !g.triggered && !TooFar(g.limits, o, c) && NeedsToken(g.limits, o, c)
  }

  predicate Granted(g: Gate, o: Order, c: Context) {
    ReachesBucket(g, o, c) && HasToken(Refill(g.limits, g.bucket, c.nowSeconds))
  }

  function BucketAfter(g: Gate, o: Order, c: Context): Bucket {
    if ReachesBucket(g, o, c) then Take(Refill(g.limits, g.bucket, c.nowSeconds)) else g.bucket
  }

  function Decide(g: Gate, o: Order, c: Context): Decision {
    if g.triggered then Refused(KillSwitch)
    else if TooFar(g.limits, o, c) then Refused(FatFinger)
    else if NeedsToken(g.limits, o, c) && !Granted(g, o, c) then Refused(RateLimit)
    else if OverExposed(g.limits, o, c) then Refused(Exposure)
    else if OverPosition(g.limits, o, c) then Refused(Position)
    else Allowed
  }

  function AfterCheck(g: Gate, o: Order, c: Context): Gate {
    var spent := g.(bucket := BucketAfter(g, o, c));
    var d := Decide(g, o, c);
    if d.Refused? then spent.(refusals := g.refusals.Plus(d.reason)) else spent
  }

  function AfterCycle(g: Gate, netPnl: real, ts: nat): Gate {
    if g.limits.killSwitchLossUsd > 0.0 && !g.triggered && netPnl <= -g.limits.killSwitchLossUsd
    then g.(triggered := true, triggeredTs := ts)
    else g
  }

  function Fresh(l: Limits): Gate {
    Gate(l, false, 0, Refusals(0, 0, 0, 0, 0), Bucket(0.0, 0.0, false))
  }

  // ------------------------------------------------------------------------------------------ the class

  class RiskPipeline {
    var limits: Limits
    var killSwitchTriggered: bool
    var killSwitchTs: nat
    var killSwitchRejected: nat
    var hardLimitRejections: nat
    var riskRejected: nat
    var fatFingerRejections: nat
    var rateLimited: nat
    var tokens: real
    var lastTokenTime: real
    var bucketInitialized: bool

    ghost function State(): Gate
      reads this
    {
      Gate(limits, killSwitchTriggered, killSwitchTs,
           Refusals(killSwitchRejected, fatFingerRejections, rateLimited, hardLimitRejections, riskRejected),
           Bucket(tokens, lastTokenTime, bucketInitialized))
    }

    constructor (limits: Limits)
      ensures State() == Fresh(limits)
    {
      this.limits := limits;
      killSwitchTriggered, killSwitchTs := false, 0;
      killSwitchRejected, hardLimitRejections, riskRejected, fatFingerRejections, rateLimited := 0, 0, 0, 0, 0;
      tokens, lastTokenTime, bucketInitialized := 0.0, 0.0, false;
    }

    // A new rate starts with a full bucket, and a burst of zero means one order.
    method SetOrderRateLimit(ordersPerSecond: real, burst: nat)
      modifies this`limits, this`bucketInitialized
      ensures limits == old(limits).(maxOrdersPerSecond := ordersPerSecond, orderBurst := if burst == 0 then 1 else burst)
      ensures !bucketInitialized
    {
      limits := limits.(maxOrdersPerSecond := ordersPerSecond, orderBurst := if burst == 0 then 1 else burst);
      bucketInitialized := false;
    }

    method BeginCycle(netPnl: real, ts: nat)
      modifies this`killSwitchTriggered, this`killSwitchTs
      ensures State() == AfterCycle(old(State()), netPnl, ts)
    {
      if limits.killSwitchLossUsd <= 0.0 || killSwitchTriggered {
        return;
      }
      if netPnl <= -limits.killSwitchLossUsd {
        killSwitchTriggered := true;
        killSwitchTs := ts;
      }
    }

    method CheckKillSwitch() returns (d: Decision)
      modifies this`killSwitchRejected
      ensures d == if killSwitchTriggered then Refused(KillSwitch) else Allowed
      ensures killSwitchRejected == old(killSwitchRejected) + if d.Allowed? then 0 else 1
    {
      if !killSwitchTriggered {
        return Allowed;
      }
      killSwitchRejected := killSwitchRejected + 1;
      return Refused(KillSwitch);
    }

    method CheckFatFinger(o: Order, c: Context) returns (d: Decision)
      modifies this`fatFingerRejections
      ensures d == if TooFar(limits, o, c) then Refused(FatFinger) else Allowed
      ensures fatFingerRejections == old(fatFingerRejections) + if d.Allowed? then 0 else 1
    {
      if limits.fatFingerBps <= 0.0 || o.quantity == 0 || o.price <= 0.0 {
        return Allowed;
      }
      if c.quote.None? || c.quote.value.bid <= 0.0 || c.quote.value.ask <= 0.0 {
        return Allowed;
      }
      // The middle of two positive prices is positive, so the code's further test of it never fails.
      var mid := (c.quote.value.bid + c.quote.value.ask) / 2.0;
      var deviation := AbsReal(o.price - mid) / mid * 10000.0;
      if deviation <= limits.fatFingerBps {
        return Allowed;
      }
      fatFingerRejections := fatFingerRejections + 1;
      return Refused(FatFinger);
    }

    // The bucket starts full, and then earns for the time its clock moves forward.
    method RefillTokens(now: real)
      modifies this`tokens, this`lastTokenTime, this`bucketInitialized
      ensures State().bucket == Refill(limits, old(State()).bucket, now)
    {
      var burst := MaxReal(1.0, limits.orderBurst as real);
      assert burst == limits.Burst();
      if !bucketInitialized {
        tokens := burst;
        lastTokenTime := now;
        bucketInitialized := true;
      } else if now > lastTokenTime {
        tokens := MinReal(burst, tokens + Earned(now - lastTokenTime, limits.maxOrdersPerSecond));
        lastTokenTime := now;
      }
    }

    method CheckRateLimit(o: Order, c: Context) returns (d: Decision)
      modifies this`tokens, this`lastTokenTime, this`bucketInitialized, this`rateLimited
      ensures
        var b := Refill(limits, old(State()).bucket, c.nowSeconds);
        if NeedsToken(limits, o, c)
        then State().bucket == Take(b) && d == if HasToken(b) then Allowed else Refused(RateLimit)
        else State().bucket == old(State()).bucket && d == Allowed
      ensures rateLimited == old(rateLimited) + if d.Allowed? then 0 else 1
    {
      if limits.maxOrdersPerSecond <= 0.0 || o.quantity == 0 {
        return Allowed;
      }
      if AbsInt(Projected(o, c)) < AbsInt(Current(c)) {
        return Allowed;
      }
      RefillTokens(c.nowSeconds);
      if tokens + EPSILON >= 1.0 {
        tokens := MaxReal(0.0, tokens - 1.0);
        return Allowed;
      }
      rateLimited := rateLimited + 1;
      return Refused(RateLimit);
    }

    method CheckExposure(o: Order, c: Context) returns (d: Decision)
      modifies this`hardLimitRejections
      ensures d == if OverExposed(limits, o, c) then Refused(Exposure) else Allowed
      ensures hardLimitRejections == old(hardLimitRejections) + if d.Allowed? then 0 else 1
    {
      if limits.maxExposureUsd <= 0.0 || o.quantity == 0 {
        return Allowed;
      }
      if AbsInt(Projected(o, c)) < AbsInt(Current(c)) {
        return Allowed;
      }
      var scale := MaxInt(1, c.quantityScale);
      var marked := AbsInt(Projected(o, c)) as real / scale as real * UnitNotionalAt(c.contract, o.price);
      if marked <= limits.maxExposureUsd {
        return Allowed;
      }
      hardLimitRejections := hardLimitRejections + 1;
      return Refused(Exposure);
    }

    method CheckPosition(o: Order, c: Context) returns (d: Decision)
      modifies this`riskRejected
      ensures d == if OverPosition(limits, o, c) then Refused(Position) else Allowed
      ensures riskRejected == old(riskRejected) + if d.Allowed? then 0 else 1
    {
      if limits.positionLimit <= 0 || o.quantity == 0 {
        return Allowed;
      }
      if AbsInt(Projected(o, c)) < AbsInt(Current(c)) {
        return Allowed;
      }
      var projected := Projected(o, c);
      if projected <= limits.positionLimit && projected >= -limits.positionLimit {
        return Allowed;
      }
      riskRejected := riskRejected + 1;
      return Refused(Position);
    }

    method Check(o: Order, c: Context) returns (d: Decision)
      modifies this
      ensures d == Decide(old(State()), o, c)
      ensures State() == AfterCheck(old(State()), o, c)
    {
      d := CheckKillSwitch();
      if !d.Allowed? {
        return;
      }
      d := CheckFatFinger(o, c);
      if !d.Allowed? {
        return;
      }
      d := CheckRateLimit(o, c);
      if !d.Allowed? {
        return;
      }
      d := CheckExposure(o, c);
      if !d.Allowed? {
        return;
      }
      d := CheckPosition(o, c);
    }
  }

  // ------------------------------------------------------------------------------------ runs of checks

  datatype Request = Request(order: Order, context: Context)

  function Checked(g: Gate, requests: seq<Request>): Gate {
    if requests == [] then g
    else
      var r := requests[|requests| - 1];
      AfterCheck(Checked(g, requests[..|requests| - 1]), r.order, r.context)
  }

  // How many tokens a run of checks granted, and how many risk-adding orders it let through.
  function Grants(g: Gate, requests: seq<Request>): nat {
    if requests == [] then 0
    else
      var before, r := requests[..|requests| - 1], requests[|requests| - 1];
      Grants(g, before) + if Granted(Checked(g, before), r.order, r.context) then 1 else 0
  }

  function AllowedAdding(g: Gate, requests: seq<Request>): nat {
    if requests == [] then 0
    else
      var before, r := requests[..|requests| - 1], requests[|requests| - 1];
      AllowedAdding(g, before) +
        if AddsRisk(r.order, r.context) && Decide(Checked(g, before), r.order, r.context).Allowed? then 1 else 0
  }

  // Where the bucket's clock stood when the run first used it.
  function ClockStart(g: Gate, requests: seq<Request>): real {
    if requests == [] then g.bucket.lastTime
    else
      var before := requests[..|requests| - 1];
      if Checked(g, before).bucket.initialized then ClockStart(g, before) else Checked(g, requests).bucket.lastTime
  }

  ghost predicate BucketValid(g: Gate) {
    g.bucket.initialized ==> 0.0 <= g.bucket.tokens <= g.limits.Burst()
  }

  // What `n` grants take out of the bucket at the least: a whole token each, less the slack.
  function Worth(n: nat): real {
    n as real * (1.0 - EPSILON)
  }

  lemma WorthNext(n: nat)
    ensures Worth(n + 1) == Worth(n) + 1.0 - EPSILON
  {
    OneMore(n as real, 1.0 - EPSILON);
    assert (n + 1) as real == n as real + 1.0;
  }

  lemma OneMore(x: real, y: real)
    ensures (x + 1.0) * y == x * y + y
  {
  }

  // The bucket's size and what it earns while its clock moves.
  function Allowance(l: Limits, from: real, to: real): real {
    l.Burst() + Earned(to - from, l.maxOrdersPerSecond)
  }

  // What the bucket may still grant, plus what it granted, never exceeds its size and its refills.
  ghost predicate Budgeted(l: Limits, b: Bucket, grants: nat, start: real) {
    if b.initialized
    then b.tokens + Worth(grants) <= Allowance(l, start, b.lastTime)
    else grants == 0
  }

  lemma RefillKeepsBudget(l: Limits, b: Bucket, now: real, grants: nat, start: real)
    requires l.maxOrdersPerSecond > 0.0 && Budgeted(l, b, grants, start)
    requires b.initialized ==> 0.0 <= b.tokens <= l.Burst()
    ensures
      var r := Refill(l, b, now);
      && Budgeted(l, r, grants, if b.initialized then start else now) && 0.0 <= r.tokens <= l.Burst()
      && (b.initialized ==> r.lastTime >= b.lastTime)
  {
    if b.initialized && now > b.lastTime {
      BudgetMoves(l.maxOrdersPerSecond, b.lastTime, now, start);
    }
  }

  lemma BudgetMoves(rate: real, last: real, now: real, start: real)
    requires rate > 0.0 && now > last
    ensures Earned(now - last, rate) > 0.0
    ensures Earned(now - start, rate) == Earned(last - start, rate) + Earned(now - last, rate)
  {
  }

  lemma StepKeepsBudget(g: Gate, o: Order, c: Context, grants: nat, start: real)
    requires BucketValid(g) && Budgeted(g.limits, g.bucket, grants, start)
    ensures
      var after := AfterCheck(g, o, c);
      && BucketValid(after) && after.limits == g.limits
      && Budgeted(g.limits, after.bucket, grants + if Granted(g, o, c) then 1 else 0,
                  if g.bucket.initialized then start else after.bucket.lastTime)
      && (g.bucket.initialized ==> after.bucket.initialized && after.bucket.lastTime >= g.bucket.lastTime)
  {
    if ReachesBucket(g, o, c) {
      RefillKeepsBudget(g.limits, g.bucket, c.nowSeconds, grants, start);
      TakeKeepsBudget(g.limits, Refill(g.limits, g.bucket, c.nowSeconds), grants,
                      if g.bucket.initialized then start else c.nowSeconds);
    }
  }

  lemma TakeKeepsBudget(l: Limits, b: Bucket, grants: nat, start: real)
    requires b.initialized && b.tokens >= 0.0 && Budgeted(l, b, grants, start)
    ensures Budgeted(l, Take(b), grants + if HasToken(b) then 1 else 0, start)
  {
    WorthNext(grants);
    if HasToken(b) {
      assert Take(b).tokens + 1.0 - EPSILON <= b.tokens;
    }
  }

  lemma {:induction false} RunKeepsBudget(g: Gate, requests: seq<Request>)
    requires BucketValid(g)
    ensures
      var after := Checked(g, requests);
      && BucketValid(after) && after.limits == g.limits
      && Budgeted(g.limits, after.bucket, Grants(g, requests), ClockStart(g, requests))
      && (after.bucket.initialized ==> after.bucket.lastTime >= ClockStart(g, requests))
  {
    if requests != [] {
      var before, r := requests[..|requests| - 1], requests[|requests| - 1];
      RunKeepsBudget(g, before);
      StepKeepsBudget(Checked(g, before), r.order, r.context, Grants(g, before), ClockStart(g, before));
    }
  }

  lemma {:induction false} AllowedNeedGrants(g: Gate, requests: seq<Request>)
    requires g.limits.maxOrdersPerSecond > 0.0
    ensures AllowedAdding(g, requests) <= Grants(g, requests) && Checked(g, requests).limits == g.limits
  {
    if requests != [] {
      AllowedNeedGrants(g, requests[..|requests| - 1]);
    }
  }

  // `n` orders, less the slack of each, are no more than the burst and the rate times a stretch of time.
  ghost predicate WithinRate(n: nat, l: Limits, from: real, to: real) {
    n as real * (1.0 - 0.000000000001)
    <= (if l.orderBurst > 1 then l.orderBurst as real else 1.0) + l.maxOrdersPerSecond * (to - from)
  }

  lemma WrittenOut(l: Limits, n: nat, from: real, to: real)
    requires Worth(n) <= Allowance(l, from, to)
    ensures WithinRate(n, l, from, to)
  {
  }

  // Over any stretch of checks under fixed limits, whatever the clock does: the tokens granted, less the
  // comparison's slack, stay within the bucket's size plus the rate times how far the bucket's own clock
  // moved; the tokens left are between none and the size; and every risk-adding order let through had one.
  lemma TokenBucketBound(g: Gate, requests: seq<Request>)
    requires BucketValid(g) && g.limits.maxOrdersPerSecond > 0.0
    ensures
      var after, n, start := Checked(g, requests), Grants(g, requests), ClockStart(g, requests);
      && WithinRate(n, g.limits, start, after.bucket.lastTime)
      && after.bucket.lastTime >= start && AllowedAdding(g, requests) <= n && BucketValid(after)
  {
    RunKeepsBudget(g, requests);
    AllowedNeedGrants(g, requests);
    IdleClock(g, requests);
    BudgetBounds(g.limits, Checked(g, requests).bucket, Grants(g, requests), ClockStart(g, requests));
    WrittenOut(g.limits, Grants(g, requests), ClockStart(g, requests), Checked(g, requests).bucket.lastTime);
  }

  // ------------------------------------------------------------------------ the bucket over any window

  ghost predicate Times(requests: seq<Request>, from: real, to: real) {
    forall i :: 0 <= i < |requests| ==> from <= requests[i].context.nowSeconds <= to
  }

  // Within a window the bucket earns only from the window's start on: what it held before is at most its size.
  ghost predicate Windowed(l: Limits, b: Bucket, grants: nat, from: real, to: real, ahead: bool)
  {
    && (ahead ==> b.initialized && b.lastTime > to && b.tokens + Worth(grants) <= l.Burst())
    && (!ahead ==>
          && (b.initialized ==> b.lastTime <= to)
          && if b.initialized && b.lastTime >= from then b.tokens + Worth(grants) <= Allowance(l, from, b.lastTime)
             else grants == 0)
  }

  lemma RefillKeepsWindow(l: Limits, b: Bucket, now: real, grants: nat, from: real, to: real, ahead: bool)
    requires l.maxOrdersPerSecond > 0.0 && from <= now <= to && Windowed(l, b, grants, from, to, ahead)
    requires b.initialized ==> 0.0 <= b.tokens <= l.Burst()
    ensures
      var r := Refill(l, b, now);
      && Windowed(l, r, grants, from, to, ahead) && r.initialized && 0.0 <= r.tokens <= l.Burst()
      && (!ahead ==> r.lastTime >= from)
  {
    EarnedIsNot(now - from, l.maxOrdersPerSecond);
    if b.initialized && now > b.lastTime {
      EarnedIsNot(now - b.lastTime, l.maxOrdersPerSecond);
    }
    if b.initialized && now > b.lastTime >= from {
      BudgetMoves(l.maxOrdersPerSecond, b.lastTime, now, from);
    }
    assert Worth(0) == 0.0;
  }

  lemma EarnedIsNot(elapsed: real, rate: real)
    requires elapsed >= 0.0 && rate > 0.0
    ensures Earned(elapsed, rate) >= 0.0
  {
  }

  lemma TakeKeepsWindow(l: Limits, b: Bucket, grants: nat, from: real, to: real, ahead: bool)
    requires b.initialized && b.tokens >= 0.0 && Windowed(l, b, grants, from, to, ahead) && (ahead || b.lastTime >= from)
    ensures Windowed(l, Take(b), grants + if HasToken(b) then 1 else 0, from, to, ahead)
  {
    WorthNext(grants);
    if HasToken(b) {
      assert Take(b).tokens + 1.0 - EPSILON <= b.tokens;
    }
  }

  lemma StepKeepsWindow(g: Gate, r: Request, grants: nat, from: real, to: real, ahead: bool)
    requires BucketValid(g) && g.limits.maxOrdersPerSecond > 0.0 && from <= r.context.nowSeconds <= to
    requires Windowed(g.limits, g.bucket, grants, from, to, ahead)
    ensures
      var after := AfterCheck(g, r.order, r.context);
      && BucketValid(after) && after.limits == g.limits
      && Windowed(g.limits, after.bucket, grants + if Granted(g, r.order, r.context) then 1 else 0, from, to, ahead)
  {
    if ReachesBucket(g, r.order, r.context) {
      var now := r.context.nowSeconds;
      RefillKeepsWindow(g.limits, g.bucket, now, grants, from, to, ahead);
      TakeKeepsWindow(g.limits, Refill(g.limits, g.bucket, now), grants, from, to, ahead);
    }
  }

  lemma WindowOpens(l: Limits, b: Bucket, from: real, to: real)
    requires l.maxOrdersPerSecond > 0.0 && from <= to && (b.initialized ==> 0.0 <= b.tokens <= l.Burst())
    ensures Windowed(l, b, 0, from, to, b.initialized && b.lastTime > to)
  {
    assert Worth(0) == 0.0;
    if b.lastTime >= from {
      EarnedIsNot(b.lastTime - from, l.maxOrdersPerSecond);
    }
  }

  lemma {:induction false} RunKeepsWindow(g: Gate, requests: seq<Request>, from: real, to: real, ahead: bool)
    requires BucketValid(g) && g.limits.maxOrdersPerSecond > 0.0 && from <= to && Times(requests, from, to)
    requires ahead <==> g.bucket.initialized && g.bucket.lastTime > to
    ensures
      var after := Checked(g, requests);
      && BucketValid(after) && after.limits == g.limits
      && Windowed(g.limits, after.bucket, Grants(g, requests), from, to, ahead)
  {
    if requests == [] {
      WindowOpens(g.limits, g.bucket, from, to);
    } else {
      var before, r := requests[..|requests| - 1], requests[|requests| - 1];
      assert r == requests[|requests| - 1] && forall i :: 0 <= i < |before| ==> before[i] == requests[i];
      RunKeepsWindow(g, before, from, to, ahead);
      StepKeepsWindow(Checked(g, before), r, Grants(g, before), from, to, ahead);
    }
  }

  lemma WindowBounds(l: Limits, b: Bucket, grants: nat, from: real, to: real, ahead: bool)
    requires l.maxOrdersPerSecond > 0.0 && from <= to && Windowed(l, b, grants, from, to, ahead)
    requires b.initialized ==> b.tokens >= 0.0
    ensures Worth(grants) <= Allowance(l, from, to)
  {
    EarnedIsNot(to - from, l.maxOrdersPerSecond);
    assert Worth(0) == 0.0;
    if !ahead && b.initialized && b.lastTime >= from {
      EarnedGrows(b.lastTime - from, to - from, l.maxOrdersPerSecond);
    }
  }

  lemma EarnedGrows(x: real, y: real, rate: real)
    requires x <= y && rate > 0.0
    ensures Earned(x, rate) <= Earned(y, rate)
  {
  }

  lemma WorthGrows(m: nat, n: nat)
    requires m <= n
    ensures Worth(m) <= Worth(n)
  {
  }

  // In any stretch of a run during which the clock reads between two times, however it moves between them and
  // whatever the bucket held, the risk-adding orders let through, less the slack of each, are at most the
  // burst and the rate times the stretch.
  lemma AllowedInWindow(g: Gate, requests: seq<Request>, from: real, to: real)
    requires BucketValid(g) && g.limits.maxOrdersPerSecond > 0.0 && from <= to && Times(requests, from, to)
    ensures WithinRate(AllowedAdding(g, requests), g.limits, from, to)
  {
    var ahead, n := g.bucket.initialized && g.bucket.lastTime > to, Grants(g, requests);
    RunKeepsWindow(g, requests, from, to, ahead);
    WindowBounds(g.limits, Checked(g, requests).bucket, n, from, to, ahead);
    AllowedNeedGrants(g, requests);
    WorthGrows(AllowedAdding(g, requests), n);
    WrittenOut(g.limits, AllowedAdding(g, requests), from, to);
  }

  // --------------------------------------------------------------------------- what the bucket must grant

  // Whatever came before in one moment, a fresh bucket has a whole token for each of the first orders, as many
  // as the burst.
  lemma {:induction false} BurstIsLeft(g: Gate, requests: seq<Request>, now: real)
    requires !g.bucket.initialized && g.limits.maxOrdersPerSecond > 0.0 && Times(requests, now, now)
    ensures
      var after, burst := Checked(g, requests), if g.limits.orderBurst > 1 then g.limits.orderBurst as real else 1.0;
      && after.limits == g.limits && after.triggered == g.triggered
      && (after.bucket.initialized ==>
            && after.bucket.lastTime == now
            && after.bucket.tokens >= burst - Grants(g, requests) as real && after.bucket.tokens >= 0.0)
      && (!after.bucket.initialized ==> Grants(g, requests) == 0)
  {
    if requests != [] {
      var before, r := requests[..|requests| - 1], requests[|requests| - 1];
      assert forall i :: 0 <= i < |before| ==> before[i] == requests[i];
      BurstIsLeft(g, before, now);
    }
  }

  lemma {:induction false} GrantsAtMost(g: Gate, requests: seq<Request>)
    ensures Grants(g, requests) <= |requests|
  {
    if requests != [] {
      GrantsAtMost(g, requests[..|requests| - 1]);
    }
  }

  // A fresh bucket refuses none of the first orders of one moment, as many as the burst.
  lemma BurstIsGranted(g: Gate, requests: seq<Request>, o: Order, c: Context)
    requires !g.bucket.initialized && g.limits.maxOrdersPerSecond > 0.0
    requires Times(requests, c.nowSeconds, c.nowSeconds)
    requires |requests| + 1 <= if g.limits.orderBurst > 1 then g.limits.orderBurst else 1
    ensures Decide(Checked(g, requests), o, c) != Refused(RateLimit)
  {
    BurstIsLeft(g, requests, c.nowSeconds);
    GrantsAtMost(g, requests);
    assert (|requests| + 1) as real == |requests| as real + 1.0;
  }

  // A stretch of time is too short for a token.
  ghost predicate TooSoon(elapsed: real, rate: real) {
    elapsed * rate + 0.000000000001 < 1.0
  }

  lemma TooSoonIs(elapsed: real, rate: real)
    ensures TooSoon(elapsed, rate) <==> Earned(elapsed, rate) + EPSILON < 1.0
  {
  }

  // A bucket that is empty grants the next order if and only if its clock has moved on by the time of one
  // token, up to the slack.
  lemma EmptyBucketWaits(g: Gate, o: Order, c: Context)
    requires g.bucket.initialized && g.bucket.tokens == 0.0 && g.limits.maxOrdersPerSecond > 0.0
    requires !g.triggered && !TooFar(g.limits, o, c) && AddsRisk(o, c)
    ensures Decide(g, o, c) == Refused(RateLimit)
            <==> TooSoon(c.nowSeconds - g.bucket.lastTime, g.limits.maxOrdersPerSecond)
  {
    AvailableEmpty(g.limits, g.bucket, c.nowSeconds);
    TooSoonIs(c.nowSeconds - g.bucket.lastTime, g.limits.maxOrdersPerSecond);
  }

  lemma EarnedSign(elapsed: real, rate: real)
    requires rate > 0.0
    ensures Earned(elapsed, rate) > 0.0 <==> elapsed > 0.0
    ensures Earned(elapsed, rate) == elapsed * rate
  {
    if elapsed <= 0.0 {
      assert -elapsed * rate >= 0.0;
    }
  }

  lemma AvailableEmpty(l: Limits, b: Bucket, now: real)
    requires b.initialized && b.tokens == 0.0 && l.maxOrdersPerSecond > 0.0
    ensures HasToken(Refill(l, b, now)) <==> Earned(now - b.lastTime, l.maxOrdersPerSecond) + EPSILON >= 1.0
  {
    EarnedSign(now - b.lastTime, l.maxOrdersPerSecond);
  }

  // Whatever it held, a clock that has moved on by one over the rate grants the next order.
  lemma TokenIsEarned(g: Gate, o: Order, c: Context)
    requires BucketValid(g) && g.bucket.initialized && g.limits.maxOrdersPerSecond > 0.0
    requires c.nowSeconds - g.bucket.lastTime >= 1.0 / g.limits.maxOrdersPerSecond
    ensures Decide(g, o, c) != Refused(RateLimit)
  {
    var rate, elapsed := g.limits.maxOrdersPerSecond, c.nowSeconds - g.bucket.lastTime;
    EarnsOne(elapsed, rate);
  }

  lemma EarnsOne(elapsed: real, rate: real)
    requires rate > 0.0 && elapsed >= 1.0 / rate
    ensures elapsed > 0.0 && Earned(elapsed, rate) >= 1.0
  {
    var t := 1.0 / rate;
    assert t * rate == 1.0;
    assert t > 0.0;
    assert (elapsed - t) * rate >= 0.0;
  }

  lemma BudgetBounds(l: Limits, b: Bucket, grants: nat, start: real)
    requires Budgeted(l, b, grants, start)
    requires if b.initialized then b.tokens >= 0.0 else b.lastTime == start
    ensures Worth(grants) <= Allowance(l, start, b.lastTime)
  {
    if !b.initialized {
      assert Earned(b.lastTime - start, l.maxOrdersPerSecond) == 0.0;
    }
  }

  lemma {:induction false} IdleClock(g: Gate, requests: seq<Request>)
    ensures !Checked(g, requests).bucket.initialized ==>
              Checked(g, requests).bucket == g.bucket && ClockStart(g, requests) == g.bucket.lastTime
  {
    if requests != [] {
      IdleClock(g, requests[..|requests| - 1]);
    }
  }

  // ------------------------------------------------------------ the decision in the source's own figures

  // The exposure an order would leave, before and after it; a side that is not a buy sells.
  function Before(c: Context): int {
    c.position + c.pendingBuy - c.pendingSell
  }

  function After(o: Order, c: Context): int {
    if o.side == Buying then Before(c) + o.quantity else Before(c) - o.quantity
  }

  // It does not bring the exposure nearer zero.
  ghost predicate Adds(o: Order, c: Context) {
    o.quantity > 0 && AbsInt(After(o, c)) >= AbsInt(Before(c))
  }

  // The price is off the middle by more than so many hundredths of a percent of it.
  ghost predicate OffMiddle(l: Limits, o: Order, c: Context) {
    && l.fatFingerBps > 0.0 && o.quantity > 0 && o.price > 0.0
    && c.quote.Some? && c.quote.value.bid > 0.0 && c.quote.value.ask > 0.0
    && var sum := c.quote.value.bid + c.quote.value.ask;
       AbsReal(2.0 * o.price - sum) * 10000.0 > l.fatFingerBps * sum
  }

  // What the bucket holds once it has been filled up to now.
  function Available(l: Limits, b: Bucket, now: real): real {
    var burst := if l.orderBurst > 1 then l.orderBurst as real else 1.0;
    if !b.initialized then burst
    else
      var tokens := if now > b.lastTime then b.tokens + l.maxOrdersPerSecond * (now - b.lastTime) else b.tokens;
      if now > b.lastTime && tokens > burst then burst else tokens
  }

  ghost predicate OutOfTokens(g: Gate, o: Order, c: Context) {
    && g.limits.maxOrdersPerSecond > 0.0 && Adds(o, c)
    && Available(g.limits, g.bucket, c.nowSeconds) + 0.000000000001 < 1.0
  }

  // The dollars it would leave at the order's price exceed the cap.
  ghost predicate OverCap(l: Limits, o: Order, c: Context) {
    var scale := if c.quantityScale > 1 then c.quantityScale else 1;
    var unit := if c.contract.unitNotionalUsd > 0.0 then c.contract.unitNotionalUsd else o.price * c.contract.multiplier;
    l.maxExposureUsd > 0.0 && Adds(o, c) && AbsInt(After(o, c)) as real * unit > l.maxExposureUsd * scale as real
  }

  ghost predicate OverLimit(l: Limits, o: Order, c: Context) {
    l.positionLimit > 0 && Adds(o, c) && (After(o, c) > l.positionLimit || After(o, c) < -l.positionLimit)
  }

  lemma MiddleIs(price: real, bid: real, ask: real, bps: real)
    requires bid > 0.0 && ask > 0.0
    ensures
      var mid := (bid + ask) / 2.0;
      AbsReal(price - mid) / mid * 10000.0 > bps <==> AbsReal(2.0 * price - (bid + ask)) * 10000.0 > bps * (bid + ask)
  {
    var mid := (bid + ask) / 2.0;
    var off := AbsReal(price - mid);
    assert AbsReal(2.0 * price - (bid + ask)) == 2.0 * off && bid + ask == 2.0 * mid;
    Ratio(off, mid, bps);
  }

  lemma Ratio(x: real, d: real, bps: real)
    requires d > 0.0
    ensures x / d * 10000.0 > bps <==> 2.0 * x * 10000.0 > bps * (2.0 * d)
  {
    var q := x / d;
    assert q * d == x;
    if q * 10000.0 > bps {
      assert (q * 10000.0 - bps) * d > 0.0;
    } else {
      assert (bps - q * 10000.0) * d >= 0.0;
    }
  }

  lemma OffMiddleIsTooFar(l: Limits, o: Order, c: Context)
    ensures TooFar(l, o, c) <==> OffMiddle(l, o, c)
  {
    if c.quote.Some? && c.quote.value.bid > 0.0 && c.quote.value.ask > 0.0 {
      MiddleIs(o.price, c.quote.value.bid, c.quote.value.ask, l.fatFingerBps);
    }
  }

  lemma OverCapIsOverExposed(l: Limits, o: Order, c: Context)
    ensures OverExposed(l, o, c) <==> OverCap(l, o, c)
  {
    var scale := if c.quantityScale > 1 then c.quantityScale else 1;
    Marked(AbsInt(Projected(o, c)) as real, scale as real, UnitNotionalAt(c.contract, o.price), l.maxExposureUsd,
           ExposureAt(o, c));
  }

  lemma Marked(x: real, scale: real, unit: real, cap: real, marked: real)
    requires scale > 0.0 && marked == x / scale * unit
    ensures marked > cap <==> x * unit > cap * scale
  {
    var q := x / scale;
    assert q * scale == x;
    assert marked * scale == x * unit;
    if marked > cap {
      assert (marked - cap) * scale > 0.0;
    } else {
      assert (cap - marked) * scale >= 0.0;
    }
  }

  lemma AvailableIsRefilled(l: Limits, b: Bucket, now: real)
    ensures Refill(l, b, now).tokens == Available(l, b, now)
  {
  }

  // The five controls in their order, each by what it looks at.
  lemma DecisionIs(g: Gate, o: Order, c: Context)
    ensures Decide(g, o, c) ==
              if g.triggered then Refused(KillSwitch)
              else if OffMiddle(g.limits, o, c) then Refused(FatFinger)
              else if OutOfTokens(g, o, c) then Refused(RateLimit)
              else if OverCap(g.limits, o, c) then Refused(Exposure)
              else if OverLimit(g.limits, o, c) then Refused(Position)
              else Allowed
  {
    OffMiddleIsTooFar(g.limits, o, c);
    OverCapIsOverExposed(g.limits, o, c);
    AvailableIsRefilled(g.limits, g.bucket, c.nowSeconds);
  }

  // What a check leaves of the bucket: untouched by an order that does not come to it, otherwise filled up to
  // now, and a token poorer if it held one.
  lemma BucketIs(g: Gate, o: Order, c: Context)
    ensures
      var b, n, held := g.bucket, AfterCheck(g, o, c).bucket, Available(g.limits, g.bucket, c.nowSeconds);
      if g.triggered || OffMiddle(g.limits, o, c) || g.limits.maxOrdersPerSecond <= 0.0 || !Adds(o, c) then n == b
      else
        && n.initialized && n.lastTime == (if b.initialized && b.lastTime > c.nowSeconds then b.lastTime else c.nowSeconds)
        && n.tokens == if held + 0.000000000001 < 1.0 then held else if held < 1.0 then 0.0 else held - 1.0
  {
    OffMiddleIsTooFar(g.limits, o, c);
    AvailableIsRefilled(g.limits, g.bucket, c.nowSeconds);
  }

  // ------------------------------------------------------------------------------- what the gate promises

  // The order was charged: the bucket is refilled to now and then poorer.
  predicate Spent(g: Gate, o: Order, c: Context) {
    var refilled, after := Refill(g.limits, g.bucket, c.nowSeconds), AfterCheck(g, o, c).bucket;
    after.initialized && after.lastTime == refilled.lastTime && after.tokens < refilled.tokens
  }

  // What can be read before the call: the order reaches a bucket that holds a token, and breaks one of the
  // two limits that are looked at only after the token is taken.
  predicate WastesToken(g: Gate, o: Order, c: Context) {
    && g.limits.maxOrdersPerSecond > 0.0 && !g.triggered && !TooFar(g.limits, o, c) && AddsRisk(o, c)
    && HasToken(Refill(g.limits, g.bucket, c.nowSeconds))
    && (OverExposed(g.limits, o, c) || OverPosition(g.limits, o, c))
  }

  // Which orders are refused and still cost a token. The header's note that a refused order consumes
  // nothing (src/app/risk_pipeline.h:23) holds of all others and of none of these.
  lemma RefusalSpendsToken(g: Gate, o: Order, c: Context)
    ensures Decide(g, o, c).Refused? && Spent(g, o, c) <==> WastesToken(g, o, c)
  {
    assert ReachesBucket(g, o, c) <==> !g.triggered && !TooFar(g.limits, o, c) && NeedsToken(g.limits, o, c);
    if ReachesBucket(g, o, c) {
      TakeIsCharge(Refill(g.limits, g.bucket, c.nowSeconds));
    }
  }

  // Taking is a charge exactly when there is a token to take.
  lemma TakeIsCharge(b: Bucket)
    ensures Take(b).tokens < b.tokens <==> HasToken(b)
  {
    if HasToken(b) {
      assert b.tokens > 0.0;
    }
  }

  // What that costs: the next risk-adding order of the same moment, near the market, is refused for want of
  // a token exactly when the bucket held fewer than two.
  lemma RefusalStarvesNext(g: Gate, o: Order, c: Context, next: Order, d: Context)
    requires WastesToken(g, o, c)
    requires AddsRisk(next, d) && !TooFar(g.limits, next, d) && d.nowSeconds <= c.nowSeconds
    ensures Decide(g, o, c).Refused?
    ensures Decide(AfterCheck(g, o, c), next, d) == Refused(RateLimit)
            <==> Refill(g.limits, g.bucket, c.nowSeconds).tokens + EPSILON < 2.0
  {
    RefusalSpendsToken(g, o, c);
    var b := Refill(g.limits, g.bucket, c.nowSeconds);
    var after := AfterCheck(g, o, c);
    assert after.bucket == Take(b) && after.limits == g.limits && !after.triggered;
    assert after.bucket.lastTime >= c.nowSeconds;
    assert Refill(after.limits, after.bucket, d.nowSeconds) == after.bucket;
  }

  // Such orders exist in every fresh gate with both controls on: any larger than the limit, into a flat
  // account.
  lemma OversizedOrderSpends(g: Gate, o: Order, c: Context)
    requires g.limits.positionLimit > 0 && g.limits.maxOrdersPerSecond > 0.0 && g.bucket == Fresh(g.limits).bucket
    requires !g.triggered && Current(c) == 0 && o.quantity > g.limits.positionLimit && !TooFar(g.limits, o, c)
    ensures WastesToken(g, o, c)
    ensures Decide(g, o, c).Refused? && Spent(g, o, c)
  {
    assert AddsRisk(o, c) && OverPosition(g.limits, o, c);
    RefusalSpendsToken(g, o, c);
  }

  // A reducing order is refused by the switch and the price band alone, and costs nothing.
  lemma ReducingPasses(g: Gate, o: Order, c: Context)
    requires Reducing(o, c) || o.quantity == 0
    ensures Decide(g, o, c).Allowed? <==> !g.triggered && !TooFar(g.limits, o, c)
    ensures AfterCheck(g, o, c).bucket == g.bucket
  {
  }

  // With every control at zero the gate lets everything through and remembers nothing.
  lemma OffIsTransparent(g: Gate, o: Order, c: Context, netPnl: real, ts: nat)
    requires g.limits.positionLimit <= 0 && g.limits.maxExposureUsd <= 0.0 && g.limits.killSwitchLossUsd <= 0.0
    requires g.limits.fatFingerBps <= 0.0 && g.limits.maxOrdersPerSecond <= 0.0 && !g.triggered
    ensures Decide(g, o, c).Allowed? && AfterCheck(g, o, c) == g && AfterCycle(g, netPnl, ts) == g
  {
  }

  // What the position gate lets through ends within the limit or closer to zero than it began.
  lemma PositionGate(g: Gate, o: Order, c: Context)
    requires g.limits.positionLimit > 0 && Decide(g, o, c).Allowed?
    ensures o.quantity == 0 || AbsInt(Projected(o, c)) <= g.limits.positionLimit
            || AbsInt(Projected(o, c)) < AbsInt(Current(c))
  {
  }

  // -------------------------------------------------------------------------------- the latch over a run

  datatype Call = Cycle(netPnl: real, ts: nat) | Submit(request: Request)

  function AfterCall(g: Gate, call: Call): Gate {
    match call
    case Cycle(netPnl, ts) => AfterCycle(g, netPnl, ts)
    case Submit(r) => AfterCheck(g, r.order, r.context)
  }

  function AfterCalls(g: Gate, calls: seq<Call>): Gate {
    if calls == [] then g else AfterCall(AfterCalls(g, calls[..|calls| - 1]), calls[|calls| - 1])
  }

  // How many orders of a run were refused for a reason.
  function RefusedFor(g: Gate, calls: seq<Call>, reason: Reason): nat {
    if calls == [] then 0
    else
      var before, call := calls[..|calls| - 1], calls[|calls| - 1];
      RefusedFor(g, before, reason) +
        if call.Submit? && Decide(AfterCalls(g, before), call.request.order, call.request.context) == Refused(reason)
        then 1 else 0
  }

  predicate Trips(l: Limits, call: Call) {
    call.Cycle? && l.killSwitchLossUsd > 0.0 && call.netPnl <= -l.killSwitchLossUsd
  }

  // The switch is a latch: over any run it has tripped exactly when some cycle's result reached the loss
  // limit, it carries the time of the first such cycle, and from then on every order is refused by it.
  lemma {:induction false} KillSwitchIsALatch(l: Limits, calls: seq<Call>, first: nat)
    requires forall i :: 0 <= i < |calls| && i < first ==> !Trips(l, calls[i])
    requires first < |calls| ==> Trips(l, calls[first])
    ensures
      var g := AfterCalls(Fresh(l), calls);
      && g.limits == l
      && (g.triggered <==> first < |calls|)
      && (first < |calls| ==> g.triggeredTs == calls[first].ts)
      && (g.triggered ==> forall o, c :: Decide(g, o, c) == Refused(KillSwitch))
  {
    if calls != [] {
      var before := calls[..|calls| - 1];
      KillSwitchIsALatch(l, before, first);
    }
  }

  // Every refusal is counted once, under the control that made it.
  lemma {:induction false} RefusalsAreCounted(g: Gate, calls: seq<Call>)
    ensures
      var before, after := g.refusals, AfterCalls(g, calls).refusals;
      && after.killSwitch == before.killSwitch + RefusedFor(g, calls, KillSwitch)
      && after.fatFinger == before.fatFinger + RefusedFor(g, calls, FatFinger)
      && after.rateLimit == before.rateLimit + RefusedFor(g, calls, RateLimit)
      && after.exposure == before.exposure + RefusedFor(g, calls, Exposure)
      && after.position == before.position + RefusedFor(g, calls, Position)
  {
    if calls != [] {
      RefusalsAreCounted(g, calls[..|calls| - 1]);
    }
  }
}

// One fill against one position (src/accounting/portfolio.cpp:29-162): the closing part valued from
// the entry price, the opening part at the fill price, the fees carried between them. The two sides
// are written once with a sign, +1 for a buy and -1 for a sell.
module Leg {
  import opened Exchange
  import opened InstrumentSpec
  import opened Reals

  // The instrument terms of an account; a scale of zero is replaced by one when the account is made.
  datatype Terms = Terms(contract: Contract, scale: nat) {
    ghost predicate Valid() {
      scale > 0
    }
  }

  // What a fill can change: the account's cash and realized result, and the position.
  datatype Leg = Leg(
    cash: real,
    realized: real,
    quantity: int,
    averagePrice: real,
    entryTs: nat,
    entryFees: real)

  function Units(t: Terms, quantity: nat): real {
    UnitsOf(quantity, t.scale)
  }

  function Held(t: Terms, g: Leg): real {
    Units(t, AbsInt(g.quantity))
  }

  function UnitValue(t: Terms, price: real): real {
    UnitNotionalAt(t.contract, price)
  }

  // How much of a fill closes the position it meets.
  function CloseQuantity(held: int, s: int, q: nat): (c: nat)
    requires s == 1 || s == -1
    ensures c <= q && c <= AbsInt(held)
    ensures c > 0 ==> (held > 0 <==> s < 0)
  {
    if held * s < 0 then MinInt(AbsInt(held), q) else 0
  }

  function ChargeLeg(g: Leg, fee: real): Leg {
    g.(cash := g.cash - fee, realized := g.realized - fee)
  }

  // Settling `c` units of the position that are worth `now` and cost `atEntry`: cash moves by their
  // value now and the result by the change since entry.
  function Settle(g: Leg, s: int, c: nat, now: real, atEntry: real): Leg {
    g.(cash := g.cash - s as real * now,
       realized := g.realized + s as real * (atEntry - now),
       quantity := g.quantity + s * c)
  }

  // The carried entry fees that belong to `c` of the units held.
  function EntryFeeShare(t: Terms, g: Leg, c: nat): real {
    if Held(t, g) > 0.0 then g.entryFees * (Units(t, c) / Held(t, g)) else 0.0
  }

  function ValueNow(t: Terms, g: Leg, c: nat, price: real): real {
    PositionValue(t.contract, Units(t, c), g.averagePrice, price)
  }

  function ValueAtEntry(t: Terms, g: Leg, c: nat): real {
    UnitValue(t, g.averagePrice) * Units(t, c)
  }

  // Closing `c` units of the position; their share of the carried entry fees is claimed.
  function CloseLeg(t: Terms, g: Leg, s: int, c: nat, price: real): Leg {
    Settle(g, s, c, ValueNow(t, g, c, price), ValueAtEntry(t, g, c))
    .(entryFees := g.entryFees - EntryFeeShare(t, g, c))
  }

  // The quantity-weighted entry price.
  function Average(existing: real, average: real, open: real, price: real): real {
    if existing + open > 0.0 then (existing * average + open * price) / (existing + open) else 0.0
  }

  // Entering `o` units that cost `cost`; a position opened from flat starts its clock and its fee
  // carry here, and adding to one already held keeps both.
  function Enter(g: Leg, s: int, o: nat, cost: real, average: real, ts: nat, fee: real): Leg {
    g.(cash := g.cash - s as real * cost,
       quantity := g.quantity + s * o,
       averagePrice := average,
       entryTs := if g.quantity == 0 then ts else g.entryTs,
       entryFees := (if g.quantity == 0 then 0.0 else g.entryFees) + fee)
  }

  function OpenCost(t: Terms, o: nat, price: real): real {
    UnitValue(t, price) * Units(t, o)
  }

  // Opening `o` units in the direction of the fill, carrying `fee` of its fee with the position.
  function OpenLeg(t: Terms, g: Leg, s: int, o: nat, price: real, ts: nat, fee: real): Leg {
    Enter(g, s, o, OpenCost(t, o, price), Average(Held(t, g), g.averagePrice, Units(t, o), price), ts, fee)
  }

  function Portion(fee: real, part: nat, whole: nat): real
    requires whole > 0
  {
    fee * (part as real) / (whole as real)
  }

  function FillLeg(t: Terms, g: Leg, s: int, q: nat, price: real, ts: nat, fee: real): Leg
    requires q > 0 && (s == 1 || s == -1)
  {
    var c := CloseQuantity(g.quantity, s, q);
    var charged := ChargeLeg(g, fee);
    var closed := if c > 0 then CloseLeg(t, charged, s, c, price) else charged;
    if q > c then OpenLeg(t, closed, s, q - c, price, ts, Portion(fee, q - c, q)) else closed
  }

  // ------------------------------------------------------------------------------- real arithmetic

  // Taking x1 of h and then x2 of the rest leaves what taking x1 + x2 at once leaves.
  lemma ShareTwice(e: real, h: real, x1: real, x2: real)
    requires h > 0.0 && h - x1 > 0.0
    ensures (e - e * (x1 / h)) - (e - e * (x1 / h)) * (x2 / (h - x1)) == e - e * ((x1 + x2) / h)
  {
    var u, v := x1 / h, x2 / (h - x1);
    assert (1.0 - u) * h == h - x1;
    assert (u + v * (1.0 - u)) * h == x1 + v * ((1.0 - u) * h) == x1 + x2;
    QuotientIs(x1 + x2, h, u + v * (1.0 - u));
    assert (e - e * u) - (e - e * u) * v == e - e * (u + v * (1.0 - u));
  }

  // Averaging in o1 and then o2 at one price is averaging in o1 + o2.
  lemma AverageTwice(e: real, a: real, o1: real, o2: real, p: real)
    requires e >= 0.0 && o1 > 0.0 && o2 > 0.0
    ensures Average(e + o1, Average(e, a, o1, p), o2, p) == Average(e, a, o1 + o2, p)
  {
    var m := Average(e, a, o1, p);
    assert (e + o1) * m == e * a + o1 * p;
    assert (e + o1) * m + o2 * p == e * a + (o1 + o2) * p by {
      assert (o1 + o2) * p == o1 * p + o2 * p;
    }
    assert e + o1 + o2 == e + (o1 + o2);
  }

  lemma PortionOfPortion(fee: real, part: nat, middle: nat, whole: nat)
    requires middle > 0 && whole > 0
    ensures Portion(Portion(fee, middle, whole), part, middle) == Portion(fee, part, whole)
  {
    var m, w, p := middle as real, whole as real, part as real;
    var f := fee * m / w;
    assert f * w == fee * m;
    var x := fee * p / w;
    assert x * w == fee * p;
    assert (x * m) * w == (x * w) * m == fee * p * m == (f * w) * p == (f * p) * w;
    CancelRight(x * m, f * p, w);
    QuotientIs(f * p, m, x);
  }

  lemma PortionAdds(fee: real, a: nat, b: nat, whole: nat)
    requires whole > 0
    ensures Portion(fee, a + b, whole) == Portion(fee, a, whole) + Portion(fee, b, whole)
  {
    assert (a + b) as real == a as real + b as real;
    assert fee * (a + b) as real == fee * a as real + fee * b as real;
    QuotientAdds(fee * a as real, fee * b as real, whole as real);
  }

  lemma PortionWhole(fee: real, whole: nat)
    requires whole > 0
    ensures Portion(fee, whole, whole) == fee
  {
    QuotientIs(fee * whole as real, whole as real, fee);
  }

  // ------------------------------------------------------------------------------- split invariance

  lemma SettleTwice(g: Leg, s: int, c1: nat, c2: nat, n1: real, n2: real, e1: real, e2: real)
    requires s == 1 || s == -1
    ensures Settle(Settle(g, s, c1, n1, e1), s, c2, n2, e2) == Settle(g, s, c1 + c2, n1 + n2, e1 + e2)
  {
  }

  lemma ValuesAdd(t: Terms, g: Leg, c1: nat, c2: nat, price: real)
    requires t.Valid()
    ensures ValueNow(t, g, c1 + c2, price) == ValueNow(t, g, c1, price) + ValueNow(t, g, c2, price)
    ensures ValueAtEntry(t, g, c1 + c2) == ValueAtEntry(t, g, c1) + ValueAtEntry(t, g, c2)
  {
    UnitsAdd(c1, c2, t.scale);
    ValueAdds(t.contract, Units(t, c1), Units(t, c2), g.averagePrice, price);
    Distribute(UnitValue(t, g.averagePrice), Units(t, c1), Units(t, c2));
  }

  lemma CloseTwiceFees(t: Terms, g: Leg, s: int, c1: nat, c2: nat, price: real)
    requires t.Valid() && (s == 1 || s == -1)
    requires c1 > 0 && c2 > 0 && c1 + c2 <= AbsInt(g.quantity) && g.quantity * s < 0
    ensures
      CloseLeg(t, CloseLeg(t, g, s, c1, price), s, c2, price).entryFees
      == CloseLeg(t, g, s, c1 + c2, price).entryFees
  {
    var rest := AbsInt(g.quantity) - c1;
    assert AbsInt(CloseLeg(t, g, s, c1, price).quantity) == rest;
    UnitsAdd(c1, c2, t.scale);
    UnitsAdd(rest, c1, t.scale);
    UnitsPositive(rest, t.scale);
    UnitsPositive(AbsInt(g.quantity), t.scale);
    ShareTwice(g.entryFees, Held(t, g), Units(t, c1), Units(t, c2));
  }

  lemma CloseTwice(t: Terms, g: Leg, s: int, c1: nat, c2: nat, price: real)
    requires t.Valid() && (s == 1 || s == -1)
    requires c1 > 0 && c2 > 0 && c1 + c2 <= AbsInt(g.quantity) && g.quantity * s < 0
    ensures CloseLeg(t, CloseLeg(t, g, s, c1, price), s, c2, price) == CloseLeg(t, g, s, c1 + c2, price)
  {
    var m := CloseLeg(t, g, s, c1, price);
    assert ValueNow(t, m, c2, price) == ValueNow(t, g, c2, price) && ValueAtEntry(t, m, c2) == ValueAtEntry(t, g, c2);
    ValuesAdd(t, g, c1, c2, price);
    SettleTwice(g, s, c1, c2, ValueNow(t, g, c1, price), ValueNow(t, g, c2, price),
                ValueAtEntry(t, g, c1), ValueAtEntry(t, g, c2));
    CloseTwiceFees(t, g, s, c1, c2, price);
  }

  lemma EnterTwice(g: Leg, s: int, o1: nat, o2: nat, k1: real, k2: real, a1: real, a2: real, ts: nat,
                   f1: real, f2: real)
    requires (s == 1 || s == -1) && o1 > 0 && g.quantity * s >= 0
    ensures Enter(Enter(g, s, o1, k1, a1, ts, f1), s, o2, k2, a2, ts, f2)
         == Enter(g, s, o1 + o2, k1 + k2, a2, ts, f1 + f2)
  {
  }

  lemma CostsAdd(t: Terms, o1: nat, o2: nat, price: real)
    requires t.Valid()
    ensures OpenCost(t, o1 + o2, price) == OpenCost(t, o1, price) + OpenCost(t, o2, price)
  {
    UnitsAdd(o1, o2, t.scale);
    Distribute(UnitValue(t, price), Units(t, o1), Units(t, o2));
  }

  lemma OpenTwice(t: Terms, g: Leg, s: int, o1: nat, o2: nat, price: real, ts: nat, f1: real, f2: real)
    requires t.Valid() && (s == 1 || s == -1)
    requires o1 > 0 && o2 > 0 && g.quantity * s >= 0
    ensures OpenLeg(t, OpenLeg(t, g, s, o1, price, ts, f1), s, o2, price, ts, f2)
         == OpenLeg(t, g, s, o1 + o2, price, ts, f1 + f2)
  {
    var a1 := Average(Held(t, g), g.averagePrice, Units(t, o1), price);
    var a2 := Average(Held(t, g) + Units(t, o1), a1, Units(t, o2), price);
    UnitsAdd(o1, o2, t.scale);
    UnitsAdd(AbsInt(g.quantity), o1, t.scale);
    UnitsPositive(o1, t.scale);
    UnitsPositive(o2, t.scale);
    AverageTwice(Held(t, g), g.averagePrice, Units(t, o1), Units(t, o2), price);
    CostsAdd(t, o1, o2, price);
    assert AbsInt(g.quantity + s * o1) == AbsInt(g.quantity) + o1;
    EnterTwice(g, s, o1, o2, OpenCost(t, o1, price), OpenCost(t, o2, price), a1, a2, ts, f1, f2);
  }

  // Charging a fee commutes with settling and entering.
  lemma SettleCharge(g: Leg, s: int, c: nat, now: real, atEntry: real, fee: real)
    ensures ChargeLeg(Settle(g, s, c, now, atEntry), fee) == Settle(ChargeLeg(g, fee), s, c, now, atEntry)
  {
  }

  lemma CloseCharge(t: Terms, g: Leg, s: int, c: nat, price: real, fee: real)
    ensures ChargeLeg(CloseLeg(t, g, s, c, price), fee) == CloseLeg(t, ChargeLeg(g, fee), s, c, price)
  {
    SettleCharge(g, s, c, ValueNow(t, g, c, price), ValueAtEntry(t, g, c), fee);
  }

  lemma OpenCharge(t: Terms, g: Leg, s: int, o: nat, price: real, ts: nat, f: real, fee: real)
    ensures ChargeLeg(OpenLeg(t, g, s, o, price, ts, f), fee) == OpenLeg(t, ChargeLeg(g, fee), s, o, price, ts, f)
  {
    EnterCharge(g, s, o, OpenCost(t, o, price), Average(Held(t, g), g.averagePrice, Units(t, o), price), ts, f, fee);
  }

  lemma EnterCharge(g: Leg, s: int, o: nat, cost: real, average: real, ts: nat, f: real, fee: real)
    ensures ChargeLeg(Enter(g, s, o, cost, average, ts, f), fee) == Enter(ChargeLeg(g, fee), s, o, cost, average, ts, f)
  {
  }

  // One fill of q1 + q2 equals the two fills at the same price and moment with the fee in proportion,
  // through every open, addition, partial close, full close and flip.
  lemma SplitFill(t: Terms, g: Leg, s: int, q1: nat, q2: nat, price: real, ts: nat, fee: real)
    requires t.Valid() && (s == 1 || s == -1) && q1 > 0 && q2 > 0
    ensures
      var q := q1 + q2;
      var first := FillLeg(t, g, s, q1, price, ts, Portion(fee, q1, q));
      FillLeg(t, first, s, q2, price, ts, Portion(fee, q2, q)) == FillLeg(t, g, s, q, price, ts, fee)
  {
    var c := CloseQuantity(g.quantity, s, q1 + q2);
    if q1 < c {
      SplitWithinClose(t, g, s, q1, q2, price, ts, fee);
    } else if q1 == c {
      SplitAtFlat(t, g, s, q1, q2, price, ts, fee);
    } else {
      SplitWithinOpen(t, g, s, q1, q2, price, ts, fee);
    }
  }

  // The first part only closes part of the position.
  lemma SplitWithinClose(t: Terms, g: Leg, s: int, q1: nat, q2: nat, price: real, ts: nat, fee: real)
    requires t.Valid() && (s == 1 || s == -1) && q1 > 0 && q2 > 0
    requires q1 < CloseQuantity(g.quantity, s, q1 + q2)
    ensures
      var q := q1 + q2;
      var first := FillLeg(t, g, s, q1, price, ts, Portion(fee, q1, q));
      FillLeg(t, first, s, q2, price, ts, Portion(fee, q2, q)) == FillLeg(t, g, s, q, price, ts, fee)
  {
    var q := q1 + q2;
    var f1, f2 := Portion(fee, q1, q), Portion(fee, q2, q);
    var c := CloseQuantity(g.quantity, s, q);
    PortionAdds(fee, q1, q2, q);
    PortionWhole(fee, q);
    var charged := ChargeLeg(g, f1);
    assert ChargeLeg(charged, f2) == ChargeLeg(g, fee);
    var first := CloseLeg(t, charged, s, q1, price);
    assert first == FillLeg(t, g, s, q1, price, ts, f1);
    assert CloseQuantity(first.quantity, s, q2) == c - q1;
    CloseCharge(t, charged, s, q1, price, f2);
    CloseTwice(t, ChargeLeg(g, fee), s, q1, c - q1, price);
    if q > c {
      PortionOfPortion(fee, q - c, q2, q);
    }
  }

  // The first part exactly closes the position and the second opens the other way.
  lemma SplitAtFlat(t: Terms, g: Leg, s: int, q1: nat, q2: nat, price: real, ts: nat, fee: real)
    requires t.Valid() && (s == 1 || s == -1) && q1 > 0 && q2 > 0
    requires q1 == CloseQuantity(g.quantity, s, q1 + q2)
    ensures
      var q := q1 + q2;
      var first := FillLeg(t, g, s, q1, price, ts, Portion(fee, q1, q));
      FillLeg(t, first, s, q2, price, ts, Portion(fee, q2, q)) == FillLeg(t, g, s, q, price, ts, fee)
  {
    var q := q1 + q2;
    var f1, f2 := Portion(fee, q1, q), Portion(fee, q2, q);
    PortionAdds(fee, q1, q2, q);
    PortionWhole(fee, q);
    PortionWhole(f2, q2);
    var charged := ChargeLeg(g, f1);
    assert ChargeLeg(charged, f2) == ChargeLeg(g, fee);
    var first := CloseLeg(t, charged, s, q1, price);
    assert first == FillLeg(t, g, s, q1, price, ts, f1);
    assert first.quantity == 0;
    CloseCharge(t, charged, s, q1, price, f2);
  }

  // The first part already opens, so the second only adds.
  lemma SplitWithinOpen(t: Terms, g: Leg, s: int, q1: nat, q2: nat, price: real, ts: nat, fee: real)
    requires t.Valid() && (s == 1 || s == -1) && q1 > 0 && q2 > 0
    requires q1 > CloseQuantity(g.quantity, s, q1 + q2)
    ensures
      var q := q1 + q2;
      var first := FillLeg(t, g, s, q1, price, ts, Portion(fee, q1, q));
      FillLeg(t, first, s, q2, price, ts, Portion(fee, q2, q)) == FillLeg(t, g, s, q, price, ts, fee)
  {
    var q := q1 + q2;
    var f1, f2 := Portion(fee, q1, q), Portion(fee, q2, q);
    var c := CloseQuantity(g.quantity, s, q);
    assert CloseQuantity(g.quantity, s, q1) == c;
    PortionAdds(fee, q1, q2, q);
    PortionWhole(fee, q);
    PortionWhole(f2, q2);
    PortionOfPortion(fee, q1 - c, q1, q);
    PortionAdds(fee, q1 - c, q2, q);
    var charged := ChargeLeg(g, f1);
    assert ChargeLeg(charged, f2) == ChargeLeg(g, fee);
    var closed := if c > 0 then CloseLeg(t, charged, s, c, price) else charged;
    var flat := ChargeLeg(closed, f2);
    assert closed.quantity * s >= 0;
    if c > 0 {
      CloseCharge(t, charged, s, c, price, f2);
    }
    var first := OpenLeg(t, closed, s, q1 - c, price, ts, Portion(f1, q1 - c, q1));
    assert first == FillLeg(t, g, s, q1, price, ts, f1);
    assert CloseQuantity(first.quantity, s, q2) == 0;
    OpenCharge(t, closed, s, q1 - c, price, ts, Portion(f1, q1 - c, q1), f2);
    OpenTwice(t, flat, s, q1 - c, q2, price, ts, Portion(f1, q1 - c, q1), f2);
  }

  // ------------------------------------------------------------------------------ conservation laws

  // What the position cost: signed, at the entry price.
  function EntryValue(t: Terms, g: Leg): real {
    if g.quantity == 0 then 0.0
    else (if g.quantity > 0 then 1.0 else -1.0) * ValueAtEntry(t, g, AbsInt(g.quantity))
  }

  // What the position is worth at `price`: signed.
  function MarkedValue(t: Terms, g: Leg, price: real): real {
    if g.quantity == 0 then 0.0
    else (if g.quantity > 0 then 1.0 else -1.0) * ValueNow(t, g, AbsInt(g.quantity), price)
  }

  // Cash less the realized result plus the cost of what is held: what every event must keep.
  function Invested(t: Terms, g: Leg): real {
    g.cash - g.realized + EntryValue(t, g)
  }

  lemma CloseKeepsInvested(t: Terms, g: Leg, s: int, c: nat, price: real)
    requires t.Valid() && (s == 1 || s == -1) && 0 < c <= AbsInt(g.quantity) && g.quantity * s < 0
    ensures Invested(t, CloseLeg(t, g, s, c, price)) == Invested(t, g)
    ensures MarkedValue(t, CloseLeg(t, g, s, c, price), price)
         == MarkedValue(t, g, price) + s as real * ValueNow(t, g, c, price)
  {
    var rest := AbsInt(g.quantity) - c;
    ValuesAdd(t, g, rest, c, price);
    var m := CloseLeg(t, g, s, c, price);
    assert AbsInt(m.quantity) == rest && m.averagePrice == g.averagePrice;
    if rest == 0 {
      NothingIsWorthNothing(t, g, price);
    }
  }

  lemma NothingIsWorthNothing(t: Terms, g: Leg, price: real)
    ensures ValueNow(t, g, 0, price) == 0.0 && ValueAtEntry(t, g, 0) == 0.0
  {
  }

  // The cost of a position after an addition is the cost before plus the cost of what was added,
  // under either kind of contract.
  lemma AverageKeepsCost(c: Contract, e: real, a: real, o: real, p: real)
    requires e >= 0.0 && o > 0.0
    ensures UnitNotionalAt(c, Average(e, a, o, p)) * (e + o)
         == UnitNotionalAt(c, a) * e + UnitNotionalAt(c, p) * o
  {
    var m := Average(e, a, o, p);
    assert m * (e + o) == e * a + o * p;
    if c.unitNotionalUsd > 0.0 {
      Distribute(c.unitNotionalUsd, e, o);
    } else {
      var k := c.multiplier;
      assert m * k * (e + o) == k * (m * (e + o)) == k * (e * a + o * p);
      Distribute(k, e * a, o * p);
      assert k * (e * a) == a * k * e && k * (o * p) == p * k * o;
    }
  }

  lemma OpenKeepsInvested(t: Terms, g: Leg, s: int, o: nat, price: real, ts: nat, fee: real)
    requires t.Valid() && (s == 1 || s == -1) && o > 0 && g.quantity * s >= 0
    ensures Invested(t, OpenLeg(t, g, s, o, price, ts, fee)) == Invested(t, g)
  {
    var m := OpenLeg(t, g, s, o, price, ts, fee);
    assert AbsInt(m.quantity) == AbsInt(g.quantity) + o;
    UnitsAdd(AbsInt(g.quantity), o, t.scale);
    UnitsPositive(o, t.scale);
    AverageKeepsCost(t.contract, Held(t, g), g.averagePrice, Units(t, o), price);
    if g.quantity == 0 {
      NothingIsWorthNothing(t, g, price);
    }
  }

  lemma FillKeepsInvested(t: Terms, g: Leg, s: int, q: nat, price: real, ts: nat, fee: real)
    requires t.Valid() && (s == 1 || s == -1) && q > 0
    ensures Invested(t, FillLeg(t, g, s, q, price, ts, fee)) == Invested(t, g)
  {
    var c := CloseQuantity(g.quantity, s, q);
    var charged := ChargeLeg(g, fee);
    assert Invested(t, charged) == Invested(t, g);
    var closed := if c > 0 then CloseLeg(t, charged, s, c, price) else charged;
    if c > 0 {
      CloseKeepsInvested(t, charged, s, c, price);
    }
    if q > c {
      OpenKeepsInvested(t, closed, s, q - c, price, ts, Portion(fee, q - c, q));
    }
  }

  // ------------------------------------------------------------------- what a fill does to equity

  // A position that is held was entered at a positive price.
  ghost predicate PricedLeg(g: Leg) {
    g.quantity != 0 ==> g.averagePrice > 0.0
  }

  function Equity(t: Terms, g: Leg, price: real): real {
    g.cash + MarkedValue(t, g, price)
  }

  // N e o (p - a)^2 / (a (e a + o p)): what the averaging of a fixed face contract loses on a long.
  function AveragingTerm(face: real, e: real, a: real, o: real, p: real): real
    requires e > 0.0 && a > 0.0 && o > 0.0 && p > 0.0
  {
    var d := a * (e * a + o * p);
    assert d > 0.0;
    face * e * o * ((p - a) * (p - a)) / d
  }

  lemma FaceAveraging(face: real, e: real, a: real, o: real, p: real)
    requires e > 0.0 && a > 0.0 && o > 0.0 && p > 0.0
    ensures Average(e, a, o, p) > 0.0
    ensures face * (e + o) * (p / Average(e, a, o, p)) == face * e * (p / a) + face * o - AveragingTerm(face, e, a, o, p)
  {
    var m := Average(e, a, o, p);
    var w := e * a + o * p;
    assert w > 0.0;
    assert m * (e + o) == w;
    QuotientIs(p, m, p * (e + o) / w) by {
      var x := p * (e + o) / w;
      assert x * w == p * (e + o);
      assert x * m * (e + o) == p * (e + o);
      CancelRight(x * m, p, e + o);
    }
    FaceIdentity(face, e, a, o, p, w);
  }

  lemma FaceIdentity(face: real, e: real, a: real, o: real, p: real, w: real)
    requires e > 0.0 && a > 0.0 && o > 0.0 && p > 0.0 && w == e * a + o * p > 0.0 && a * w > 0.0
    ensures face * (e + o) * (p * (e + o) / w)
         == face * e * (p / a) + face * o - face * e * o * ((p - a) * (p - a)) / (a * w)
  {
    var lhs := face * (e + o) * (p * (e + o) / w);
    var r1 := face * e * (p / a);
    var r3 := face * e * o * ((p - a) * (p - a)) / (a * w);
    ClearRatio(face * (e + o), p * (e + o), w, a);
    ClearRatio(face * e, p, a, w);
    assert r3 * (a * w) == face * e * o * ((p - a) * (p - a));
    FacePolynomial(face, e, a, o, p);
    FaceSum(lhs, r1, face * o, r3, a, w, face * (e + o) * (p * (e + o)) * a, face * e * p * w,
            face * e * o * ((p - a) * (p - a)));
  }

  // A quotient by one factor, multiplied by it and another.
  lemma ClearRatio(x: real, y: real, d: real, other: real)
    requires d != 0.0
    ensures x * (y / d) * (other * d) == x * y * other
    ensures x * (y / d) * (d * other) == x * y * other
  {
    var q := y / d;
    assert q * d == y;
    assert x * q * (other * d) == x * (q * d) * other;
  }

  // An identity between values from the one between their multiples.
  lemma FaceSum(lhs: real, r1: real, r2: real, r3: real, a: real, w: real, m: real, m1: real, m3: real)
    requires a * w > 0.0
    requires lhs * (a * w) == m && r1 * (a * w) == m1 && r3 * (a * w) == m3
    requires m == m1 + r2 * (a * w) - m3
    ensures lhs == r1 + r2 - r3
  {
    assert (r1 + r2 - r3) * (a * w) == m;
    CancelRight(lhs, r1 + r2 - r3, a * w);
  }

  lemma FacePolynomial(n: real, e: real, a: real, o: real, p: real)
    ensures n * (e + o) * (p * (e + o)) * a
         == n * e * p * (e * a + o * p) + n * o * (a * (e * a + o * p)) - n * e * o * ((p - a) * (p - a))
  {
  }

  // What averaging does to equity marked at the fill price: nothing on a price-quoted instrument, on a
  // close or on an open from flat; the averaging term when a fixed face position is added to.
  function Deviation(t: Terms, g: Leg, s: int, q: nat, price: real): real
    requires t.Valid() && PricedLeg(g) && price > 0.0 && q > 0 && (s == 1 || s == -1)
  {
    if t.contract.FixedFace() && g.quantity * s > 0 then
      UnitsPositive(AbsInt(g.quantity), t.scale);
      UnitsPositive(q, t.scale);
      s as real * AveragingTerm(t.contract.unitNotionalUsd, Held(t, g), g.averagePrice, Units(t, q), price)
    else 0.0
  }

  // The term is a loss for a long and a gain for a short, and it vanishes exactly when the addition is
  // made at the average price.
  lemma AveragingTermSign(face: real, e: real, a: real, o: real, p: real)
    requires face > 0.0 && e > 0.0 && a > 0.0 && o > 0.0 && p > 0.0
    ensures AveragingTerm(face, e, a, o, p) >= 0.0
    ensures AveragingTerm(face, e, a, o, p) == 0.0 <==> p == a
  {
    SquareSign(p - a, (p - a) * (p - a));
    TermSign(AveragingTerm(face, e, a, o, p), a * (e * a + o * p), face * e * o, (p - a) * (p - a));
  }

  lemma TermSign(x: real, d: real, k: real, sq: real)
    requires d > 0.0 && k > 0.0 && sq >= 0.0 && x == k * sq / d
    ensures x >= 0.0
    ensures x == 0.0 <==> sq == 0.0
  {
    assert x * d == k * sq;
    if sq > 0.0 {
      PositiveProduct(k, sq);
    }
  }

  lemma CloseEquity(t: Terms, g: Leg, s: int, c: nat, price: real)
    requires t.Valid() && (s == 1 || s == -1) && 0 < c <= AbsInt(g.quantity) && g.quantity * s < 0
    ensures Equity(t, CloseLeg(t, g, s, c, price), price) == Equity(t, g, price)
  {
    CloseKeepsInvested(t, g, s, c, price);
  }

  lemma OpenAverage(t: Terms, g: Leg, s: int, o: nat, price: real)
    requires t.Valid() && PricedLeg(g) && price > 0.0 && o > 0
    ensures Average(Held(t, g), g.averagePrice, Units(t, o), price) > 0.0
  {
    UnitsPositive(o, t.scale);
    if g.quantity != 0 {
      UnitsPositive(AbsInt(g.quantity), t.scale);
      FaceAveraging(1.0, Held(t, g), g.averagePrice, Units(t, o), price);
    } else {
      QuotientIs(Units(t, o) * price, Units(t, o), price);
    }
  }

  lemma OpenEquityPriceQuoted(t: Terms, g: Leg, s: int, o: nat, price: real, ts: nat, fee: real)
    requires t.Valid() && PricedLeg(g) && price > 0.0 && o > 0 && (s == 1 || s == -1)
    requires g.quantity * s >= 0 && !t.contract.FixedFace()
    ensures Equity(t, OpenLeg(t, g, s, o, price, ts, fee), price) == Equity(t, g, price)
  {
    var m := OpenLeg(t, g, s, o, price, ts, fee);
    OpenAverage(t, g, s, o, price);
    assert AbsInt(m.quantity) == AbsInt(g.quantity) + o;
    UnitsAdd(AbsInt(g.quantity), o, t.scale);
    QuotedMark(t, m, price);
    QuotedMark(t, g, price);
    var x := price * t.contract.multiplier;
    OpenMoves(g.cash, x, Held(t, g), Units(t, o), s, OpenCost(t, o, price));
  }

  // Paying what is opened at the price it is marked at.
  lemma OpenMoves(cash: real, x: real, held: real, open: real, s: int, cost: real)
    requires (s == 1 || s == -1) && cost == x * open
    ensures cash - s as real * cost + s as real * Worth(x, held + open) == cash + s as real * Worth(x, held)
  {
    Distribute(x, held, open);
    if s == 1 {
      assert s as real == 1.0;
    } else {
      assert s as real == -1.0;
    }
  }

  function Worth(x: real, units: real): real {
    x * units
  }

  // A price-quoted position is worth its units at the price.
  lemma QuotedMark(t: Terms, g: Leg, price: real)
    requires !t.contract.FixedFace() && PricedLeg(g)
    ensures g.quantity > 0 ==> MarkedValue(t, g, price) == Worth(price * t.contract.multiplier, Held(t, g))
    ensures g.quantity < 0 ==> MarkedValue(t, g, price) == -Worth(price * t.contract.multiplier, Held(t, g))
    ensures g.quantity == 0 ==> MarkedValue(t, g, price) == Worth(price * t.contract.multiplier, Held(t, g)) == 0.0
  {
    if g.quantity != 0 {
      QuotedValue(t, g, price);
      Signed(g.quantity, ValueNow(t, g, AbsInt(g.quantity), price));
    }
  }

  lemma QuotedValue(t: Terms, g: Leg, price: real)
    requires !t.contract.FixedFace() && g.averagePrice > 0.0
    ensures ValueNow(t, g, AbsInt(g.quantity), price) == Worth(price * t.contract.multiplier, Held(t, g))
  {
    var h, m := Held(t, g), t.contract.multiplier;
    PriceQuotedValue(t.contract, h, g.averagePrice, price);
    assert h * price * m == price * m * h;
  }

  lemma Signed(quantity: int, worth: real)
    ensures (if quantity > 0 then 1.0 else -1.0) * worth == if quantity > 0 then worth else -worth
  {
  }

  lemma FixedFaceValue(t: Terms, g: Leg, n: nat, price: real)
    requires t.contract.FixedFace() && g.averagePrice > 0.0
    ensures ValueNow(t, g, n, price) == t.contract.unitNotionalUsd * Units(t, n) * (price / g.averagePrice)
    ensures ValueAtEntry(t, g, n) == t.contract.unitNotionalUsd * Units(t, n)
  {
  }

  // Adding to a fixed face position: the values before and after differ by the cost less the term.
  lemma FixedFaceAddition(t: Terms, g: Leg, m: Leg, o: nat, price: real)
    requires t.Valid() && t.contract.FixedFace() && g.averagePrice > 0.0 && price > 0.0 && o > 0 && g.quantity != 0
    requires m.averagePrice == Average(Held(t, g), g.averagePrice, Units(t, o), price)
    ensures Held(t, g) > 0.0 && Units(t, o) > 0.0
    ensures ValueNow(t, m, AbsInt(g.quantity) + o, price)
         == ValueNow(t, g, AbsInt(g.quantity), price) + OpenCost(t, o, price)
            - AveragingTerm(t.contract.unitNotionalUsd, Held(t, g), g.averagePrice, Units(t, o), price)
  {
    var face, n := t.contract.unitNotionalUsd, AbsInt(g.quantity);
    UnitsPositive(o, t.scale);
    UnitsPositive(n, t.scale);
    UnitsAdd(n, o, t.scale);
    FaceAveraging(face, Held(t, g), g.averagePrice, Units(t, o), price);
    FixedFaceValue(t, m, n + o, price);
    FixedFaceValue(t, g, n, price);
  }

  lemma OpenEquityFixedFace(t: Terms, g: Leg, s: int, o: nat, price: real, ts: nat, fee: real)
    requires t.Valid() && PricedLeg(g) && price > 0.0 && o > 0 && (s == 1 || s == -1)
    requires g.quantity * s >= 0 && t.contract.FixedFace()
    ensures Equity(t, OpenLeg(t, g, s, o, price, ts, fee), price) == Equity(t, g, price) - Deviation(t, g, s, o, price)
  {
    var m := OpenLeg(t, g, s, o, price, ts, fee);
    assert AbsInt(m.quantity) == AbsInt(g.quantity) + o;
    UnitsPositive(o, t.scale);
    if g.quantity == 0 {
      QuotientIs(Units(t, o) * price, Units(t, o), price);
      QuotientIs(price, price, 1.0);
      FixedFaceValue(t, m, o, price);
    } else {
      FixedFaceAddition(t, g, m, o, price);
    }
  }

  // Marked at its own price, a fill moves equity by its fee, and by the averaging term when it adds to
  // a fixed face position.
  lemma FillEquity(t: Terms, g: Leg, s: int, q: nat, price: real, ts: nat, fee: real)
    requires t.Valid() && PricedLeg(g) && price > 0.0 && q > 0 && (s == 1 || s == -1)
    ensures PricedLeg(FillLeg(t, g, s, q, price, ts, fee))
    ensures Equity(t, FillLeg(t, g, s, q, price, ts, fee), price)
         == Equity(t, g, price) - fee - Deviation(t, g, s, q, price)
  {
    var c := CloseQuantity(g.quantity, s, q);
    var charged := ChargeLeg(g, fee);
    assert Equity(t, charged, price) == Equity(t, g, price) - fee;
    var closed := if c > 0 then CloseLeg(t, charged, s, c, price) else charged;
    if c > 0 {
      CloseEquity(t, charged, s, c, price);
    }
    if q > c {
      OpenAverage(t, closed, s, q - c, price);
      if t.contract.FixedFace() {
        OpenEquityFixedFace(t, closed, s, q - c, price, ts, Portion(fee, q - c, q));
      } else {
        OpenEquityPriceQuoted(t, closed, s, q - c, price, ts, Portion(fee, q - c, q));
      }
    }
  }

  // The realized result of a fill: its fee, and the change since entry of what it closed.
  function ClosePnl(t: Terms, g: Leg, s: int, c: nat, price: real): real {
    s as real * (ValueAtEntry(t, g, c) - ValueNow(t, g, c, price))
  }

  lemma FillRealized(t: Terms, g: Leg, s: int, q: nat, price: real, ts: nat, fee: real)
    requires q > 0 && (s == 1 || s == -1)
    ensures
      var c := CloseQuantity(g.quantity, s, q);
      FillLeg(t, g, s, q, price, ts, fee).realized
      == g.realized - fee + (if c > 0 then ClosePnl(t, g, s, c, price) else 0.0)
  {
    var c := CloseQuantity(g.quantity, s, q);
    var charged := ChargeLeg(g, fee);
    LegPnlIgnoresMoney(t, g, s, c, price, fee);
    var closed := if c > 0 then CloseLeg(t, charged, s, c, price) else charged;
    if c > 0 {
      CloseRealizes(t, charged, s, c, price);
    }
    if q > c {
      OpenRealizesNothing(t, closed, s, q - c, price, ts, Portion(fee, q - c, q));
    }
  }

  lemma LegPnlIgnoresMoney(t: Terms, g: Leg, s: int, c: nat, price: real, fee: real)
    ensures ClosePnl(t, ChargeLeg(g, fee), s, c, price) == ClosePnl(t, g, s, c, price)
  {
  }

  lemma CloseRealizes(t: Terms, g: Leg, s: int, c: nat, price: real)
    ensures CloseLeg(t, g, s, c, price).realized == g.realized + ClosePnl(t, g, s, c, price)
  {
  }

  lemma OpenRealizesNothing(t: Terms, g: Leg, s: int, o: nat, price: real, ts: nat, fee: real)
    ensures OpenLeg(t, g, s, o, price, ts, fee).realized == g.realized
  {
  }

  // -------------------------------------------------------------------------------- carried fees

  // The part of a fill's fee that its closing quantity paid.
  function ClosedFee(t: Terms, g: Leg, s: int, q: nat, fee: real): real
    requires q > 0 && (s == 1 || s == -1)
  {
    var c := CloseQuantity(g.quantity, s, q);
    if c > 0 then Portion(fee, c, q) + EntryFeeShare(t, g, c) else 0.0
  }

  // Nothing is carried by a flat position.
  ghost predicate CarriesOnlyIfHeld(g: Leg) {
    g.quantity == 0 ==> g.entryFees == 0.0
  }

  // Every fee is either charged to a closed trade or carried, and a position that goes flat carries
  // nothing, so the reset at the next opening loses nothing.
  lemma FillKeepsFees(t: Terms, g: Leg, s: int, q: nat, price: real, ts: nat, fee: real)
    requires t.Valid() && q > 0 && (s == 1 || s == -1) && CarriesOnlyIfHeld(g)
    ensures CarriesOnlyIfHeld(FillLeg(t, g, s, q, price, ts, fee))
    ensures FillLeg(t, g, s, q, price, ts, fee).entryFees + ClosedFee(t, g, s, q, fee) == g.entryFees + fee
  {
    var c := CloseQuantity(g.quantity, s, q);
    var charged := ChargeLeg(g, fee);
    PortionAdds(fee, c, q - c, q);
    PortionWhole(fee, q);
    PortionOfNothing(fee, q);
    var closed := if c > 0 then CloseLeg(t, charged, s, c, price) else charged;
    assert closed.entryFees == g.entryFees - (if c > 0 then EntryFeeShare(t, g, c) else 0.0);
    if c == AbsInt(g.quantity) && c > 0 {
      ClosedWhole(t, g, c);
    }
    assert closed.quantity == 0 ==> closed.entryFees == 0.0;
    if q > c {
      OpenCarries(t, closed, s, q - c, price, ts, Portion(fee, q - c, q));
    }
  }

  lemma OpenCarries(t: Terms, g: Leg, s: int, o: nat, price: real, ts: nat, fee: real)
    requires o > 0 && (s == 1 || s == -1) && g.quantity * s >= 0 && CarriesOnlyIfHeld(g)
    ensures OpenLeg(t, g, s, o, price, ts, fee).entryFees == g.entryFees + fee
    ensures OpenLeg(t, g, s, o, price, ts, fee).quantity != 0
  {
  }

  lemma ClosedWhole(t: Terms, g: Leg, c: nat)
    requires t.Valid() && 0 < c == AbsInt(g.quantity)
    ensures EntryFeeShare(t, g, c) == g.entryFees
  {
    UnitsPositive(c, t.scale);
    QuotientIs(Units(t, c), Units(t, c), 1.0);
  }

  lemma PortionOfNothing(fee: real, whole: nat)
    requires whole > 0
    ensures Portion(fee, 0, whole) == 0.0
  {
  }
}

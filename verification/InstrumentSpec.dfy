// What a quantity unit is worth (src/common/instrument_spec.h): the valuation that the fee model, the
// account and the gates share.
module InstrumentSpec {
  // `unitNotionalUsd` is the fixed USD face value of one unit, or zero when the unit is worth its price
  // times the multiplier.
  datatype Contract = Contract(unitNotionalUsd: real, multiplier: real) {
    predicate FixedFace() {
      unitNotionalUsd > 0.0
    }
  }

  function UnitNotionalAt(c: Contract, price: real): real {
    if c.unitNotionalUsd > 0.0 then c.unitNotionalUsd else price * c.multiplier
  }

  // USD value of `quantity` units held from `entryPrice` to `price`.
  function PositionValue(c: Contract, quantity: real, entryPrice: real, price: real): real {
    if entryPrice <= 0.0 then 0.0
    else UnitNotionalAt(c, entryPrice) * quantity * (price / entryPrice)
  }

  function UnitsOf(quantity: nat, scale: nat): real {
    if scale > 0 then quantity as real / scale as real else quantity as real
  }

  function FillNotionalUsd(c: Contract, price: real, quantity: nat, scale: nat): real {
    UnitNotionalAt(c, price) * UnitsOf(quantity, scale)
  }

  // The scale is how many raw units make one unit; without one they are the same.
  lemma UnitsTimesScale(quantity: nat, scale: nat)
    ensures scale > 0 ==> UnitsOf(quantity, scale) * scale as real == quantity as real
    ensures scale == 0 ==> UnitsOf(quantity, scale) == quantity as real
  {
  }

  // A fill is worth price times multiplier for each unit, or the face value, over the scale.
  lemma NotionalTimesScale(c: Contract, price: real, quantity: nat, scale: nat)
    requires scale > 0
    ensures c.unitNotionalUsd > 0.0 ==>
              FillNotionalUsd(c, price, quantity, scale) * scale as real == c.unitNotionalUsd * quantity as real
    ensures c.unitNotionalUsd <= 0.0 ==>
              FillNotionalUsd(c, price, quantity, scale) * scale as real == price * c.multiplier * quantity as real
  {
    var u, value := UnitsOf(quantity, scale), UnitNotionalAt(c, price);
    UnitsTimesScale(quantity, scale);
    assert value * u * scale as real == value * (u * scale as real);
  }

  // A fixed face holding is worth its face times how far the price is from the entry.
  lemma FixedFaceTimesEntry(c: Contract, quantity: real, entryPrice: real, price: real)
    requires c.unitNotionalUsd > 0.0 && entryPrice > 0.0
    ensures PositionValue(c, quantity, entryPrice, price) * entryPrice == c.unitNotionalUsd * quantity * price
  {
    var ratio := price / entryPrice;
    assert ratio * entryPrice == price;
    assert c.unitNotionalUsd * quantity * ratio * entryPrice == c.unitNotionalUsd * quantity * (ratio * entryPrice);
  }

  // What a floor under one order's commission still owes.
  function MinCommissionShortfall(floor: real, charged: real): (owed: real)
    ensures owed >= 0.0
    ensures charged + owed == if floor > charged then floor else charged
  {
    if floor > charged then floor - charged else 0.0
  }

  // Without a fixed face value the value is quantity times price, whatever the entry was.
  lemma PriceQuotedValue(c: Contract, quantity: real, entryPrice: real, price: real)
    requires !c.FixedFace() && entryPrice > 0.0
    ensures PositionValue(c, quantity, entryPrice, price) == quantity * price * c.multiplier
  {
    var ratio := price / entryPrice;
    assert ratio * entryPrice == price;
    assert entryPrice * c.multiplier * quantity * ratio == (ratio * entryPrice) * c.multiplier * quantity;
  }

  // A position's value is linear in its size.
  lemma ValueAdds(c: Contract, a: real, b: real, entryPrice: real, price: real)
    ensures PositionValue(c, a + b, entryPrice, price)
         == PositionValue(c, a, entryPrice, price) + PositionValue(c, b, entryPrice, price)
  {
    if entryPrice > 0.0 {
      var u, ratio := UnitNotionalAt(c, entryPrice), price / entryPrice;
      assert u * (a + b) * ratio == u * a * ratio + u * b * ratio;
    }
  }

  lemma UnitsAdd(a: nat, b: nat, scale: nat)
    requires scale > 0
    ensures UnitsOf(a + b, scale) == UnitsOf(a, scale) + UnitsOf(b, scale)
  {
    var s := scale as real;
    assert (a + b) as real == a as real + b as real;
    assert (a as real / s + b as real / s) * s == a as real + b as real;
  }

  lemma UnitsPositive(a: nat, scale: nat)
    requires scale > 0 && a > 0
    ensures UnitsOf(a, scale) > 0.0
  {
  }
}

// What the histogram of filled-order sizes says about a commission with a floor per order
// (src/app/order_ledger.cpp:16-28, src/app/run_summary.h:61-70).
module CommissionHistogram {
  import opened Exchange
  import opened Reals

  const BUCKETS := 6

  function FillSizeBucket(quantity: nat): (b: nat)
    ensures b < BUCKETS
  {
    if quantity <= 50 then 0
    else if quantity <= 99 then 1
    else if quantity <= 199 then 2
    else if quantity <= 499 then 3
    else if quantity <= 999 then 4
    else 5
  }

  // The sizes a bucket holds; an order that filled did so by at least one, and the last has no end.
  function Low(b: nat): nat
    requires b < BUCKETS
  {
    [1, 51, 100, 200, 500, 1000][b]
  }

  function High(b: nat): nat
    requires b < BUCKETS - 1
  {
    [50, 99, 199, 499, 999][b]
  }

  lemma BucketHolds(quantity: nat, b: nat)
    requires quantity > 0 && b < BUCKETS
    ensures FillSizeBucket(quantity) == b <==> Low(b) <= quantity && (b < BUCKETS - 1 ==> quantity <= High(b))
  {
  }

  // The six buckets: up to 50, 99, 199, 499 and 999 units, and more.
  lemma BucketsAre(quantity: nat)
    ensures FillSizeBucket(quantity) == 0 <==> quantity <= 50
    ensures FillSizeBucket(quantity) == 1 <==> 51 <= quantity <= 99
    ensures FillSizeBucket(quantity) == 2 <==> 100 <= quantity <= 199
    ensures FillSizeBucket(quantity) == 3 <==> 200 <= quantity <= 499
    ensures FillSizeBucket(quantity) == 4 <==> 500 <= quantity <= 999
    ensures FillSizeBucket(quantity) == 5 <==> 1000 <= quantity
  {
  }

  datatype Histogram = Histogram(counts: seq<nat>, quantities: seq<nat>) {
    ghost predicate Valid() {
      |counts| == |quantities| == BUCKETS
    }
  }

  const EMPTY := Histogram([0, 0, 0, 0, 0, 0], [0, 0, 0, 0, 0, 0])

  function Add(h: Histogram, quantity: nat): (next: Histogram)
    requires h.Valid()
    ensures next.Valid()
  {
    var b := FillSizeBucket(quantity);
    Histogram(h.counts[b := h.counts[b] + 1], h.quantities[b := h.quantities[b] + quantity])
  }

  function HistogramOf(sizes: seq<nat>): (h: Histogram)
    ensures h.Valid()
  {
    if sizes == [] then EMPTY else Add(HistogramOf(sizes[..|sizes| - 1]), sizes[|sizes| - 1])
  }

  // What an order of that size pays: the larger of the floor and the rate times its size.
  function PerOrder(floor: real, rate: real, quantity: nat): real {
    MaxReal(floor, AtRate(rate, quantity))
  }

  function AtRate(rate: real, quantity: nat): real {
    rate * quantity as real
  }

  function Bill(floor: real, rate: real, sizes: seq<nat>): real {
    if sizes == [] then 0.0
    else Bill(floor, rate, sizes[..|sizes| - 1]) + PerOrder(floor, rate, sizes[|sizes| - 1])
  }

  // A bucket is straight when the floor binds on all of it or on none of it.
  predicate AboveFloor(floor: real, rate: real, b: nat)
    requires b < BUCKETS
  {
    floor <= AtRate(rate, Low(b))
  }

  predicate BelowFloor(floor: real, rate: real, b: nat)
    requires b < BUCKETS
  {
    if b < BUCKETS - 1 then floor >= AtRate(rate, High(b)) else rate == 0.0
  }

  predicate Straight(floor: real, rate: real) {
    forall b :: 0 <= b < BUCKETS ==> AboveFloor(floor, rate, b) || BelowFloor(floor, rate, b)
  }

  // The bill read off the histogram: a bucket above the floor by its quantity, one below it by its count.
  function BucketBill(floor: real, rate: real, h: Histogram, b: nat): real
    requires h.Valid() && b < BUCKETS
  {
    if AboveFloor(floor, rate, b) then AtRate(rate, h.quantities[b]) else floor * h.counts[b] as real
  }

  function BillFrom(floor: real, rate: real, h: Histogram): real
    requires h.Valid()
  {
    BucketBill(floor, rate, h, 0) + BucketBill(floor, rate, h, 1) + BucketBill(floor, rate, h, 2) +
    BucketBill(floor, rate, h, 3) + BucketBill(floor, rate, h, 4) + BucketBill(floor, rate, h, 5)
  }

  lemma RateOrdered(rate: real, a: nat, b: nat)
    requires rate >= 0.0 && a <= b
    ensures AtRate(rate, a) <= AtRate(rate, b)
  {
    assert rate * (b - a) as real >= 0.0;
    assert b as real == a as real + (b - a) as real;
  }

  lemma StraightOrder(floor: real, rate: real, quantity: nat)
    requires rate >= 0.0 && quantity > 0 && Straight(floor, rate)
    ensures
      var b := FillSizeBucket(quantity);
      PerOrder(floor, rate, quantity) == if AboveFloor(floor, rate, b) then AtRate(rate, quantity) else floor
  {
    var b := FillSizeBucket(quantity);
    BucketHolds(quantity, b);
    RateOrdered(rate, Low(b), quantity);
    if !AboveFloor(floor, rate, b) && b < BUCKETS - 1 {
      RateOrdered(rate, quantity, High(b));
    }
  }

  lemma BucketGrows(floor: real, rate: real, h: Histogram, quantity: nat, b: nat)
    requires h.Valid() && b < BUCKETS
    ensures BucketBill(floor, rate, Add(h, quantity), b) - BucketBill(floor, rate, h, b)
         == if b != FillSizeBucket(quantity) then 0.0
            else if AboveFloor(floor, rate, b) then AtRate(rate, quantity) else floor
  {
    if b == FillSizeBucket(quantity) {
      assert (h.quantities[b] + quantity) as real == h.quantities[b] as real + quantity as real;
      assert (h.counts[b] + 1) as real == h.counts[b] as real + 1.0;
      Distribute(rate, h.quantities[b] as real, quantity as real);
      Distribute(floor, h.counts[b] as real, 1.0);
    }
  }

  lemma BillGrows(floor: real, rate: real, h: Histogram, quantity: nat)
    requires h.Valid()
    ensures BillFrom(floor, rate, Add(h, quantity)) - BillFrom(floor, rate, h)
         == if AboveFloor(floor, rate, FillSizeBucket(quantity)) then AtRate(rate, quantity) else floor
  {
    BucketGrows(floor, rate, h, quantity, 0);
    BucketGrows(floor, rate, h, quantity, 1);
    BucketGrows(floor, rate, h, quantity, 2);
    BucketGrows(floor, rate, h, quantity, 3);
    BucketGrows(floor, rate, h, quantity, 4);
    BucketGrows(floor, rate, h, quantity, 5);
  }

  lemma EmptyBill(floor: real, rate: real)
    ensures BillFrom(floor, rate, EMPTY) == 0.0
  {
    assert forall b :: 0 <= b < BUCKETS ==> EMPTY.counts[b] == 0 && EMPTY.quantities[b] == 0;
    assert AtRate(rate, 0) == 0.0 && floor * 0 as real == 0.0;
  }

  // With every bucket straight, the histogram alone gives the bill.
  lemma {:induction false} HistogramGivesBill(floor: real, rate: real, sizes: seq<nat>)
    requires rate >= 0.0 && Straight(floor, rate)
    requires forall i :: 0 <= i < |sizes| ==> sizes[i] > 0
    ensures Bill(floor, rate, sizes) == BillFrom(floor, rate, HistogramOf(sizes))
  {
    if sizes == [] {
      EmptyBill(floor, rate);
    } else {
      var before, q := sizes[..|sizes| - 1], sizes[|sizes| - 1];
      HistogramGivesBill(floor, rate, before);
      StraightOrder(floor, rate, q);
      BillGrows(floor, rate, HistogramOf(before), q);
    }
  }

  // Two runs whose orders fill the same histogram and owe different bills.
  ghost predicate Ambiguous(floor: real, rate: real, a: seq<nat>, b: seq<nat>) {
    && (forall i :: 0 <= i < |a| ==> a[i] > 0) && (forall i :: 0 <= i < |b| ==> b[i] > 0)
    && HistogramOf(a) == HistogramOf(b) && Bill(floor, rate, a) != Bill(floor, rate, b)
  }

  lemma PairBill(floor: real, rate: real, x: nat, y: nat)
    ensures Bill(floor, rate, [x, y]) == PerOrder(floor, rate, x) + PerOrder(floor, rate, y)
    ensures HistogramOf([x, y]) == Add(Add(EMPTY, x), y)
  {
    assert [x, y][..1] == [x] && [x][..0] == [];
    assert Bill(floor, rate, [x]) == Bill(floor, rate, []) + PerOrder(floor, rate, x);
    assert HistogramOf([x]) == Add(HistogramOf([]), x);
  }

  // Moving one unit from the larger to the smaller of two orders that the floor lies between lowers the bill.
  lemma SpreadCosts(floor: real, rate: real, lo: nat, hi: nat)
    requires rate > 0.0 && lo + 2 <= hi && AtRate(rate, lo) < floor < AtRate(rate, hi)
    ensures PerOrder(floor, rate, lo) + PerOrder(floor, rate, hi)
          > PerOrder(floor, rate, lo + 1) + PerOrder(floor, rate, hi - 1)
  {
    assert AtRate(rate, lo + 1) == AtRate(rate, lo) + rate by { RateStep(rate, lo); }
    assert AtRate(rate, hi) == AtRate(rate, hi - 1) + rate by { RateStep(rate, hi - 1); }
    RateOrdered(rate, lo + 1, hi - 1);
  }

  lemma RateStep(rate: real, q: nat)
    ensures AtRate(rate, q + 1) == AtRate(rate, q) + rate
  {
    assert (q + 1) as real == q as real + 1.0;
    Distribute(rate, q as real, 1.0);
  }

  lemma SameBucketSameHistogram(b: nat, w: nat, x: nat, y: nat, z: nat)
    requires FillSizeBucket(w) == FillSizeBucket(x) == FillSizeBucket(y) == FillSizeBucket(z) == b
    requires w + x == y + z
    ensures Add(Add(EMPTY, w), x) == Add(Add(EMPTY, y), z)
  {
    var p, q := Add(Add(EMPTY, w), x), Add(Add(EMPTY, y), z);
    assert p.counts == q.counts && p.quantities == q.quantities;
  }

  // A size past which the rate exceeds the floor.
  lemma LargeEnough(floor: real, rate: real, from: nat) returns (hi: nat)
    requires rate > 0.0
    ensures hi >= from && AtRate(rate, hi) > floor
  {
    var x := floor / rate;
    assert x * rate == floor;
    var n := x.Floor + 1;
    assert n as real > x;
    hi := if n < from then from else n;
    assert hi as real >= n as real;
    assert rate * (hi as real - x) > 0.0 by { PositiveProduct(rate, hi as real - x); }
  }

  lemma RateIsPositive(rate: real, lo: nat, hi: nat)
    requires rate >= 0.0 && AtRate(rate, lo) < AtRate(rate, hi)
    ensures rate > 0.0
  {
  }

  lemma CrookedIsAmbiguous(floor: real, rate: real, b: nat) returns (x: seq<nat>, y: seq<nat>)
    requires rate >= 0.0 && b < BUCKETS && !AboveFloor(floor, rate, b) && !BelowFloor(floor, rate, b)
    ensures Ambiguous(floor, rate, x, y)
  {
    var lo := Low(b);
    var hi: nat;
    if b < BUCKETS - 1 {
      hi := High(b);
      RateIsPositive(rate, lo, hi);
    } else {
      hi := LargeEnough(floor, rate, lo + 2);
    }
    SpreadCosts(floor, rate, lo, hi);
    BucketHolds(lo, b);
    BucketHolds(lo + 1, b);
    BucketHolds(hi - 1, b);
    BucketHolds(hi, b);
    SameBucketSameHistogram(b, lo, hi, lo + 1, hi - 1);
    x, y := [lo, hi], [lo + 1, hi - 1];
    PairBill(floor, rate, lo, hi);
    PairBill(floor, rate, lo + 1, hi - 1);
  }

  // The histogram determines the bill exactly when no bucket has the floor's breakeven size inside it.
  lemma HistogramDetermines(floor: real, rate: real)
    requires rate >= 0.0
    ensures Straight(floor, rate) <==> !exists a, b :: Ambiguous(floor, rate, a, b)
  {
    if Straight(floor, rate) {
      forall a, b ensures !Ambiguous(floor, rate, a, b) {
        if Ambiguous(floor, rate, a, b) {
          HistogramGivesBill(floor, rate, a);
          HistogramGivesBill(floor, rate, b);
        }
      }
    } else {
      var b :| 0 <= b < BUCKETS && !(AboveFloor(floor, rate, b) || BelowFloor(floor, rate, b));
      var x, y := CrookedIsAmbiguous(floor, rate, b);
    }
  }

  // The two schedules the bounds were chosen for, and one they were not.
  lemma KnownSchedules()
    ensures Straight(0.35, 0.0035) && Straight(1.0, 0.005) && !Straight(0.35, 0.005)
  {
    assert !AboveFloor(0.35, 0.005, 1) && !BelowFloor(0.35, 0.005, 1);
  }
}

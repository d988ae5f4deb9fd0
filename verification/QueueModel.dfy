// The readings of what leaves the queue ahead of a resting order when a level's displayed size falls
// (src/exchange/queue_model.h), and how the matching engine applies them
// (src/exchange/matching_engine.cpp:286-317). The truncating division of the code is exact here.
module QueueModel {
  import opened Exchange
  import opened Reals

  datatype Model = Conservative | ProRata | Lumpy | Optimistic

  // Rounding half away from zero, for a value that is not negative.
  function Round(x: real): int
    requires x >= 0.0
  {
    (x + 0.5).Floor
  }

  // How much of a displayed decrease leaves from ahead of us. `drawn` is what the generator returned
  // for the lumpy model: how many of `chunks` departing orders stood ahead.
  function AdvanceQuantity(model: Model, chunks: nat, reduction: nat, previous: nat, queue: nat, drawn: nat): nat
    requires chunks > 0 && drawn <= chunks
  {
    match model
    case Conservative => 0
    case Optimistic => reduction
    case Lumpy => if previous == 0 then queue else LumpyRemoval(chunks, reduction, drawn)
    case ProRata => if previous == 0 then queue else queue * reduction / previous
  }

  function LumpyRemoval(chunks: nat, reduction: nat, drawn: nat): (r: nat)
    requires chunks > 0 && drawn <= chunks
  {
    ShareBound(reduction, drawn, chunks);
    Round(reduction as real * drawn as real / chunks as real)
  }

  lemma ShareBound(reduction: nat, drawn: nat, chunks: nat)
    requires chunks > 0 && drawn <= chunks
    ensures 0.0 <= reduction as real * drawn as real / chunks as real <= reduction as real
  {
    var r, d, k := reduction as real, drawn as real, chunks as real;
    var x := r * d / k;
    assert x * k == r * d;
    assert r * d >= 0.0 && r * (k - d) >= 0.0;
    assert (r - x) * k == r * k - r * d == r * (k - d);
    SignOfFactor(x, k);
    SignOfFactor(r - x, k);
  }

  // Every rounded draw of the lumpy model removes between nothing and the whole reduction.
  lemma LumpyInRange(chunks: nat, reduction: nat, drawn: nat)
    requires chunks > 0 && drawn <= chunks
    ensures LumpyRemoval(chunks, reduction, drawn) <= reduction
  {
    ShareBound(reduction, drawn, chunks);
  }

  // ------------------------------------------------------------------------------- runs of one level

  // The engine's update of the queue when the level's displayed size goes from `previous` to `shown`.
  function Advance(model: Model, queue: nat, previous: nat, shown: nat): nat
    requires !model.Lumpy?
  {
    if shown >= previous || queue == 0 then queue
    else queue - MinInt(queue, AdvanceQuantity(model, 1, previous - shown, previous, queue, 0))
  }

  // The queue after each displayed size of a run.
  function QueueAfter(model: Model, queue: nat, sizes: seq<nat>): nat
    requires !model.Lumpy? && sizes != []
  {
    if |sizes| == 1 then queue
    else Advance(model, QueueAfter(model, queue, sizes[..|sizes| - 1]), sizes[|sizes| - 2], sizes[|sizes| - 1])
  }

  lemma DivAtMost(n: nat, m: int, d: nat)
    requires d > 0 && n <= m * d
    ensures n / d <= m
  {
    if n / d >= m + 1 {
      MulMonotone(m + 1, n / d, d);
    }
  }

  lemma DivAtLeast(n: nat, m: int, d: nat)
    requires d > 0 && n >= m * d
    ensures n / d >= m
  {
    if n / d + 1 <= m {
      MulMonotone(n / d + 1, m, d);
    }
  }

  lemma MulMonotone(a: int, b: int, d: nat)
    requires a <= b
    ensures a * d <= b * d
  {
  }

  // floor(q r / d) is at least q + r - d and at most r, when q and r are at most d.
  lemma ProRataBounds(q: nat, r: nat, d: nat)
    requires q <= d && r <= d && d > 0
    ensures q + r - d <= q * r / d <= r
    ensures q * r / d <= q
  {
    MulMonotone(q, d, r);
    DivAtMost(q * r, r, d);
    MulMonotone(r, d, q);
    DivAtMost(q * r, q, d);
    ProductOfGaps(q, r, d);
    DivAtLeast(q * r, q + r - d, d);
  }

  lemma ProductOfGaps(q: nat, r: nat, d: nat)
    requires q <= d && r <= d
    ensures (q + r - d) * d <= q * r
  {
    MulMonotone(0, d - q, d - r);
    assert (d - q) * (d - r) == q * r - (q + r - d) * d;
  }

  ghost predicate Bracketed(conservative: nat, proRata: nat, optimistic: nat, shown: nat) {
    conservative >= proRata >= optimistic && proRata <= shown
  }

  lemma AdvanceKeepsBracket(c: nat, p: nat, o: nat, previous: nat, shown: nat)
    requires Bracketed(c, p, o, previous)
    ensures Bracketed(Advance(Conservative, c, previous, shown), Advance(ProRata, p, previous, shown),
                      Advance(Optimistic, o, previous, shown), shown)
  {
    if shown < previous {
      ProRataBounds(p, previous - shown, previous);
    }
  }

  // For any displayed sizes, starting from a queue no longer than what is displayed: the pro-rata queue
  // never exceeds the displayed size, and the three readings stay ordered at every step.
  lemma {:induction false} QueuesStayBracketed(queue: nat, sizes: seq<nat>)
    requires sizes != [] && queue <= sizes[0]
    ensures Bracketed(QueueAfter(Conservative, queue, sizes), QueueAfter(ProRata, queue, sizes),
                      QueueAfter(Optimistic, queue, sizes), sizes[|sizes| - 1])
  {
    if |sizes| > 1 {
      var before := sizes[..|sizes| - 1];
      QueuesStayBracketed(queue, before);
      AdvanceKeepsBracket(QueueAfter(Conservative, queue, before), QueueAfter(ProRata, queue, before),
                          QueueAfter(Optimistic, queue, before), sizes[|sizes| - 2], sizes[|sizes| - 1]);
    }
  }

  // The three readings after one run of displayed sizes, ordered and within the display.
  ghost predicate StaysOrdered(queue: nat, sizes: seq<nat>)
    requires sizes != []
  {
    QueueAfter(Conservative, queue, sizes) >= QueueAfter(ProRata, queue, sizes) >= QueueAfter(Optimistic, queue, sizes)
  }

  ghost predicate StaysWithin(queue: nat, sizes: seq<nat>)
    requires sizes != []
  {
    QueueAfter(ProRata, queue, sizes) <= sizes[|sizes| - 1]
  }

  lemma AdvanceNeverGrows(model: Model, queue: nat, previous: nat, shown: nat)
    requires !model.Lumpy?
    ensures Advance(model, queue, previous, shown) <= queue
    ensures model.Conservative? ==> Advance(model, queue, previous, shown) == queue
  {
  }

  // A queue of one at most is emptied by the optimistic reading at the first decrease there is.
  lemma {:induction false} ShortQueueStaysOrdered(queue: nat, sizes: seq<nat>)
    requires sizes != [] && queue <= 1
    ensures StaysOrdered(queue, sizes) && QueueAfter(Conservative, queue, sizes) <= 1
  {
    if |sizes| > 1 {
      var before, previous, shown := sizes[..|sizes| - 1], sizes[|sizes| - 2], sizes[|sizes| - 1];
      ShortQueueStaysOrdered(queue, before);
      AdvanceNeverGrows(Conservative, QueueAfter(Conservative, queue, before), previous, shown);
      AdvanceNeverGrows(ProRata, QueueAfter(ProRata, queue, before), previous, shown);
    }
  }

  // A level that empties takes the whole queue under the pro-rata reading, and no more than was shown under
  // the optimistic one.
  lemma EmptyingBreaks(queue: nat, first: nat) returns (sizes: seq<nat>)
    requires queue > first && queue > 1
    ensures sizes != [] && sizes[0] == first && !StaysOrdered(queue, sizes)
  {
    if first > 0 {
      sizes := [first] + [0];
      LastAdvance(ProRata, queue, [first], 0);
      LastAdvance(Optimistic, queue, [first], 0);
      assert queue * first / first == queue by { WholeQuotient(queue, first); }
    } else {
      sizes := [0] + [1] + [0];
      LastAdvance(ProRata, queue, [0], 1);
      LastAdvance(Optimistic, queue, [0], 1);
      LastAdvance(ProRata, queue, [0] + [1], 0);
      LastAdvance(Optimistic, queue, [0] + [1], 0);
    }
  }

  lemma WholeQuotient(q: nat, d: nat)
    requires d > 0
    ensures q * d / d == q
  {
    DivAtMost(q * d, q, d);
    DivAtLeast(q * d, q, d);
  }

  lemma LastAdvance(model: Model, queue: nat, sizes: seq<nat>, shown: nat)
    requires !model.Lumpy? && sizes != []
    ensures QueueAfter(model, queue, sizes + [shown])
         == Advance(model, QueueAfter(model, queue, sizes), sizes[|sizes| - 1], shown)
  {
    assert (sizes + [shown])[..|sizes|] == sizes;
  }

  // Whatever is displayed afterwards, the readings keep their order if and only if the queue starts within
  // the first displayed size or is at most one; and the pro-rata queue stays within the display if and only
  // if it starts there. A queue taken from another price's display need not meet either.
  lemma OrderHoldsExactly(queue: nat, first: nat)
    ensures (forall sizes: seq<nat> :: sizes != [] && sizes[0] == first ==> StaysOrdered(queue, sizes))
            <==> queue <= first || queue <= 1
    ensures (forall sizes: seq<nat> :: sizes != [] && sizes[0] == first ==> StaysWithin(queue, sizes))
            <==> queue <= first
  {
    forall sizes: seq<nat> | sizes != [] && sizes[0] == first
      ensures queue <= first || queue <= 1 ==> StaysOrdered(queue, sizes)
      ensures queue <= first ==> StaysWithin(queue, sizes)
    {
      if queue <= first {
        QueuesStayBracketed(queue, sizes);
      } else if queue <= 1 {
        ShortQueueStaysOrdered(queue, sizes);
      }
    }
    if queue > first {
      assert !StaysWithin(queue, [first]);
      if queue > 1 {
        var sizes := EmptyingBreaks(queue, first);
      }
    }
  }

  // ------------------------------------------------------------------------- moments of the lumpy draw

  // What `j` orders ahead of us remove when each stands for `piece` of the reduction, or its square.
  function Removed(piece: real, j: nat, squared: bool): real {
    var x := piece * j as real;
    if squared then x * x else x
  }

  // The expectation of that removal when `k` orders leave, after `a` that stood ahead, and each of them
  // stood ahead with chance `q` independently of the others.
  function Expect(k: nat, q: real, a: nat, piece: real, squared: bool): real {
    if k == 0 then Removed(piece, a, squared)
    else q * Expect(k - 1, q, a + 1, piece, squared) + (1.0 - q) * Expect(k - 1, q, a, piece, squared)
  }

  // Where `a + k q` stands, one step of `q` at a time.
  function Mean(k: nat, q: real, a: nat): real {
    if k == 0 then a as real else Mean(k - 1, q, a) + q
  }

  lemma {:induction false} MeanIs(k: nat, q: real, a: nat)
    ensures Mean(k, q, a) == a as real + k as real * q
  {
    if k > 0 {
      MeanIs(k - 1, q, a);
      assert k as real == (k - 1) as real + 1.0;
    }
  }

  lemma {:induction false} MeanShift(k: nat, q: real, a: nat)
    ensures Mean(k, q, a + 1) == Mean(k, q, a) + 1.0
  {
    if k > 0 {
      MeanShift(k - 1, q, a);
    } else {
      assert (a + 1) as real == a as real + 1.0;
    }
  }

  // The second moment about zero, likewise.
  function SecondMoment(k: nat, q: real, a: nat): real {
    if k == 0 then a as real * a as real
    else SecondMoment(k - 1, q, a) + 2.0 * (q * Mean(k - 1, q, a)) + q
  }

  lemma NextMoment(q: real, m: real, n: real, before: real, mean: real, second: real, k: real)
    requires before == m * m + n * (q * (1.0 - q)) && mean == m + q && k == n + 1.0
    requires second == before + 2.0 * (q * m) + q
    ensures second == mean * mean + k * (q * (1.0 - q))
  {
    var w := q * (1.0 - q);
    assert (n + 1.0) * w == n * w + w;
    assert (m + q) * (m + q) == m * m + 2.0 * (q * m) + q * q;
  }

  // It is the square of the mean plus k q (1 - q).
  lemma {:induction false} SecondMomentIs(k: nat, q: real, a: nat)
    ensures SecondMoment(k, q, a) == Mean(k, q, a) * Mean(k, q, a) + k as real * (q * (1.0 - q))
  {
    if k > 0 {
      SecondMomentIs(k - 1, q, a);
      NextMoment(q, Mean(k - 1, q, a), (k - 1) as real, SecondMoment(k - 1, q, a), Mean(k, q, a), SecondMoment(k, q, a),
                 k as real);
    }
  }

  lemma {:induction false} SecondMomentShift(k: nat, q: real, a: nat)
    ensures SecondMoment(k, q, a + 1) == SecondMoment(k, q, a) + 2.0 * Mean(k, q, a) + 1.0
  {
    if k > 0 {
      SecondMomentShift(k - 1, q, a);
      MeanShift(k - 1, q, a);
      var m := Mean(k - 1, q, a);
      assert q * (m + 1.0) == q * m + q;
    } else {
      var x := a as real;
      assert (a + 1) as real == x + 1.0;
      assert (x + 1.0) * (x + 1.0) == x * x + 2.0 * x + 1.0;
    }
  }

  lemma ExpectUnfolds(k: nat, q: real, a: nat, c: real, squared: bool, up: real, stay: real)
    requires k > 0 && up == Expect(k - 1, q, a + 1, c, squared) && stay == Expect(k - 1, q, a, c, squared)
    ensures Expect(k, q, a, c, squared) == q * up + (1.0 - q) * stay
  {
  }

  // Scaling every removal scales the expectation: by `c`, or by its square for the squared removal.
  lemma {:induction false} ExpectScales(k: nat, q: real, a: nat, c: real, squared: bool, d: real)
    returns (e: real, unit: real)
    requires d == if squared then c * c else c
    ensures e == Expect(k, q, a, c, squared) && unit == Expect(k, q, a, 1.0, squared)
    ensures e == d * unit
  {
    if k == 0 {
      e, unit := ScaleBase(k, q, a, c, squared, d);
    } else {
      var up, unitUp := ExpectScales(k - 1, q, a + 1, c, squared, d);
      var stay, unitStay := ExpectScales(k - 1, q, a, c, squared, d);
      e, unit := ScaleStep(k, q, a, c, squared, d, up, unitUp, stay, unitStay);
    }
  }

  lemma ScaleBase(k: nat, q: real, a: nat, c: real, squared: bool, d: real) returns (e: real, unit: real)
    requires k == 0 && d == if squared then c * c else c
    ensures e == Expect(k, q, a, c, squared) && unit == Expect(k, q, a, 1.0, squared)
    ensures e == d * unit
  {
    e, unit := Removed(c, a, squared), Removed(1.0, a, squared);
    if squared {
      Regroup(c, a as real, e);
    }
  }

  lemma ScaleStep(k: nat, q: real, a: nat, c: real, squared: bool, d: real,
                  up: real, unitUp: real, stay: real, unitStay: real)
    returns (e: real, unit: real)
    requires k > 0 && up == Expect(k - 1, q, a + 1, c, squared) && stay == Expect(k - 1, q, a, c, squared)
    requires unitUp == Expect(k - 1, q, a + 1, 1.0, squared) && unitStay == Expect(k - 1, q, a, 1.0, squared)
    requires up == d * unitUp && stay == d * unitStay
    ensures e == Expect(k, q, a, c, squared) && unit == Expect(k, q, a, 1.0, squared)
    ensures e == d * unit
  {
    e := ExpectFrom(k, q, a, c, squared, up, stay);
    unit := ExpectFrom(k, q, a, 1.0, squared, unitUp, unitStay);
    MixTo(q, d, unitUp, unitStay, unit, up, stay, e);
  }

  lemma {:induction false} ExpectLinear(k: nat, q: real, a: nat) returns (e: real)
    ensures e == Expect(k, q, a, 1.0, false) && e == Mean(k, q, a)
  {
    if k == 0 {
      e := a as real;
    } else {
      var up := ExpectLinear(k - 1, q, a + 1);
      var stay := ExpectLinear(k - 1, q, a);
      e := ExpectFrom(k, q, a, 1.0, false, up, stay);
      var mean := MeanFrom(k, q, a, up, stay);
    }
  }

  lemma {:induction false} ExpectSquare(k: nat, q: real, a: nat) returns (e: real)
    ensures e == Expect(k, q, a, 1.0, true) && e == SecondMoment(k, q, a)
  {
    if k == 0 {
      e := a as real * a as real;
    } else {
      var up := ExpectSquare(k - 1, q, a + 1);
      var stay := ExpectSquare(k - 1, q, a);
      e := ExpectFrom(k, q, a, 1.0, true, up, stay);
      var moment := MomentFrom(k, q, a, up, stay);
    }
  }

  lemma MeanFrom(k: nat, q: real, a: nat, up: real, stay: real) returns (mean: real)
    requires k > 0 && up == Mean(k - 1, q, a + 1) && stay == Mean(k - 1, q, a)
    ensures mean == Mean(k, q, a)
    ensures q * up + (1.0 - q) * stay == mean
  {
    MeanShift(k - 1, q, a);
    mean := stay + q;
    MixShift(q, up, stay, 1.0);
  }

  lemma MixShift(q: real, up: real, stay: real, d: real)
    requires up == stay + d
    ensures q * up + (1.0 - q) * stay == stay + q * d
  {
  }

  lemma ExpectFrom(k: nat, q: real, a: nat, c: real, squared: bool, up: real, stay: real) returns (e: real)
    requires k > 0 && up == Expect(k - 1, q, a + 1, c, squared) && stay == Expect(k - 1, q, a, c, squared)
    ensures e == Expect(k, q, a, c, squared)
    ensures e == q * up + (1.0 - q) * stay
  {
    ExpectUnfolds(k, q, a, c, squared, up, stay);
    e := Expect(k, q, a, c, squared);
  }

  lemma MomentFrom(k: nat, q: real, a: nat, up: real, stay: real) returns (moment: real)
    requires k > 0 && up == SecondMoment(k - 1, q, a + 1) && stay == SecondMoment(k - 1, q, a)
    ensures moment == SecondMoment(k, q, a)
    ensures q * up + (1.0 - q) * stay == moment
  {
    SecondMomentShift(k - 1, q, a);
    moment := SecondMoment(k, q, a);
    var m := Mean(k - 1, q, a);
    MixShift(q, up, stay, 2.0 * m + 1.0);
    assert q * (2.0 * m + 1.0) == 2.0 * (q * m) + q;
  }

  lemma Regroup(c: real, x: real, y: real)
    requires y == c * x * (c * x)
    ensures y == c * c * (x * x)
  {
  }

  lemma Mix(q: real, c: real, up: real, stay: real, both: real, x: real, y: real)
    requires q * up + (1.0 - q) * stay == both && x == c * up && y == c * stay
    ensures q * x + (1.0 - q) * y == c * both
  {
    Distribute(c, q * up, (1.0 - q) * stay);
    assert q * x == c * (q * up) && (1.0 - q) * y == c * ((1.0 - q) * stay);
  }

  lemma MixTo(q: real, c: real, up: real, stay: real, both: real, x: real, y: real, e: real)
    requires q * up + (1.0 - q) * stay == both && x == c * up && y == c * stay && e == q * x + (1.0 - q) * y
    ensures e == c * both
  {
    Mix(q, c, up, stay, both, x, y);
  }

  // The chance that a departing order stood ahead of us.
  function Share(queue: nat, previous: nat): (q: real)
    requires previous > 0
    ensures 0.0 <= q <= 1.0
    ensures q == 0.0 <==> queue == 0
  {
    MinReal(1.0, queue as real / previous as real)
  }

  // For every number of chunks the lumpy draw removes reduction times share on average, the same as the
  // pro-rata rule before its truncation, with variance reduction^2 share (1 - share) / chunks. `r` and `k`
  // are the reduction and the chunks as reals, and `piece` what one departing order removes.
  lemma LumpyMeanAndVariance(chunks: nat, reduction: nat, queue: nat, previous: nat, k: real, r: real, share: real,
                             piece: real, mean: real, second: real)
    requires chunks > 0 && previous > 0 && k == chunks as real && r == reduction as real
    requires share == Share(queue, previous) && piece == r / k
    requires mean == Expect(chunks, share, 0, piece, false) && second == Expect(chunks, share, 0, piece, true)
    ensures mean == r * share
    ensures second - mean * mean == r * r * share * (1.0 - share) / k
  {
    Moments(chunks, k, share, r, piece, mean, second);
  }

  lemma Moments(chunks: nat, k: real, share: real, r: real, piece: real, mean: real, second: real)
    requires chunks > 0 && k == chunks as real && piece == r / k
    requires mean == Expect(chunks, share, 0, piece, false) && second == Expect(chunks, share, 0, piece, true)
    ensures mean == r * share
    ensures second - mean * mean == r * r * share * (1.0 - share) / k
  {
    var unit, moment := UnitMoments(chunks, k, share, piece, piece * piece, mean, second);
    assert piece * k == r;
    VarianceAlgebra(piece, k, r, share, unit, moment, mean, second);
  }

  // What leaves the queue when the engine caps the draw at what is in it.
  function ExpectCapped(k: nat, q: real, a: nat, piece: real, cap: real): real {
    if k == 0 then MinReal(cap, Removed(piece, a, false))
    else q * ExpectCapped(k - 1, q, a + 1, piece, cap) + (1.0 - q) * ExpectCapped(k - 1, q, a, piece, cap)
  }

  // A blend of two values in which neither, or the first alone for certain, was lowered.
  lemma MixOrder(q: real, up: real, stay: real, capUp: real, capStay: real, e: real, capped: real)
    requires 0.0 < q <= 1.0 && capUp <= up && capStay <= stay
    requires e == q * up + (1.0 - q) * stay && capped == q * capUp + (1.0 - q) * capStay
    ensures capped <= e
    ensures capUp < up ==> capped < e
    ensures capUp == up && capStay == stay ==> capped == e
  {
    Blend(q, up - capUp, stay - capStay, e - capped);
  }

  lemma Blend(q: real, x: real, y: real, d: real)
    requires 0.0 < q <= 1.0 && x >= 0.0 && y >= 0.0 && d == q * x + (1.0 - q) * y
    ensures d >= 0.0
    ensures x > 0.0 ==> d > 0.0
  {
    NonNegative(1.0 - q, y, (1.0 - q) * y);
    NonNegative(q, x, q * x);
    if x > 0.0 {
      ProductSign(q, x, q * x);
    }
  }

  lemma NonNegative(x: real, y: real, product: real)
    requires x >= 0.0 && y >= 0.0 && product == x * y
    ensures product >= 0.0
  {
  }

  lemma PieceOrder(piece: real, i: nat, j: nat)
    requires piece >= 0.0 && i <= j
    ensures Removed(piece, i, false) <= Removed(piece, j, false)
  {
    assert piece * (j - i) as real >= 0.0;
    assert j as real == i as real + (j - i) as real;
    Distribute(piece, i as real, (j - i) as real);
  }

  // The cap costs something exactly when all the departing orders together could exceed it and may all have
  // stood ahead.
  lemma {:induction false} CapLowers(k: nat, q: real, a: nat, piece: real, cap: real) returns (e: real, capped: real)
    requires 0.0 < q <= 1.0 && piece >= 0.0
    ensures e == Expect(k, q, a, piece, false) && capped == ExpectCapped(k, q, a, piece, cap)
    ensures if Removed(piece, a + k, false) <= cap then capped == e else capped < e
  {
    if k == 0 {
      e, capped := Removed(piece, a, false), MinReal(cap, Removed(piece, a, false));
    } else {
      var up, capUp := CapLowers(k - 1, q, a + 1, piece, cap);
      var stay, capStay := CapLowers(k - 1, q, a, piece, cap);
      PieceOrder(piece, a + (k - 1), a + k);
      assert a + 1 + (k - 1) == a + k;
      e, capped := CapStep(k, q, a, piece, cap, up, capUp, stay, capStay);
    }
  }

  lemma CapStep(k: nat, q: real, a: nat, piece: real, cap: real, up: real, capUp: real, stay: real, capStay: real)
    returns (e: real, capped: real)
    requires k > 0 && 0.0 < q <= 1.0 && capUp <= up && capStay <= stay
    requires up == Expect(k - 1, q, a + 1, piece, false) && stay == Expect(k - 1, q, a, piece, false)
    requires capUp == ExpectCapped(k - 1, q, a + 1, piece, cap) && capStay == ExpectCapped(k - 1, q, a, piece, cap)
    ensures e == Expect(k, q, a, piece, false) && capped == ExpectCapped(k, q, a, piece, cap)
    ensures capUp < up ==> capped < e
    ensures capUp == up && capStay == stay ==> capped == e
  {
    e := ExpectFrom(k, q, a, piece, false, up, stay);
    capped := CappedFrom(k, q, a, piece, cap, capUp, capStay);
    MixOrder(q, up, stay, capUp, capStay, e, capped);
  }

  lemma CappedFrom(k: nat, q: real, a: nat, piece: real, cap: real, up: real, stay: real) returns (e: real)
    requires k > 0
    requires up == ExpectCapped(k - 1, q, a + 1, piece, cap) && stay == ExpectCapped(k - 1, q, a, piece, cap)
    ensures e == ExpectCapped(k, q, a, piece, cap) && e == q * up + (1.0 - q) * stay
  {
    e := ExpectCapped(k, q, a, piece, cap);
  }

  // With nobody ahead nothing is removed, capped or not.
  lemma {:induction false} NobodyAhead(k: nat, piece: real, cap: real)
    requires cap >= 0.0
    ensures Expect(k, 0.0, 0, piece, false) == ExpectCapped(k, 0.0, 0, piece, cap) == 0.0
  {
    if k > 0 {
      NobodyAhead(k - 1, piece, cap);
    }
  }

  // The engine takes no more than the queue out of it, so the mean that leaves is still reduction times
  // share if and only if the whole reduction fits in the queue, or there is no queue. Where it does not fit,
  // less leaves on average than under the pro-rata rule.
  lemma CapKeepsMean(chunks: nat, reduction: nat, queue: nat, previous: nat, share: real, piece: real)
    requires chunks > 0 && previous > 0
    requires share == Share(queue, previous) && piece == reduction as real / chunks as real
    ensures ExpectCapped(chunks, share, 0, piece, queue as real) == reduction as real * share
            <==> reduction <= queue || queue == 0
    ensures ExpectCapped(chunks, share, 0, piece, queue as real) <= reduction as real * share
  {
    var k, r := chunks as real, reduction as real;
    var mean, second := Expect(chunks, share, 0, piece, false), Expect(chunks, share, 0, piece, true);
    Moments(chunks, k, share, r, piece, mean, second);
    if queue == 0 {
      NobodyAhead(chunks, piece, 0.0);
    } else {
      WholePiece(chunks, k, reduction, r, piece);
      CapAgainst(chunks, share, piece, r, queue as real, mean);
    }
  }

  lemma WholePiece(chunks: nat, k: real, reduction: nat, r: real, piece: real)
    requires chunks > 0 && k == chunks as real && r == reduction as real && piece == r / k
    ensures piece >= 0.0 && Removed(piece, chunks, false) == r
  {
    assert piece * k == r;
    SignOfFactor(piece, k);
  }

  lemma CapAgainst(k: nat, q: real, piece: real, whole: real, cap: real, mean: real)
    requires 0.0 < q <= 1.0 && piece >= 0.0 && Removed(piece, k, false) == whole
    requires mean == Expect(k, q, 0, piece, false)
    ensures ExpectCapped(k, q, 0, piece, cap) <= mean
    ensures ExpectCapped(k, q, 0, piece, cap) == mean <==> whole <= cap
  {
    var e, capped := CapLowers(k, q, 0, piece, cap);
    assert 0 + k == k;
  }

  // The moments of the draw with `d` the square of a piece, in terms of those of the count alone.
  lemma UnitMoments(k: nat, chunks: real, share: real, piece: real, d: real, mean: real, second: real)
    returns (unit: real, moment: real)
    requires chunks == k as real && d == piece * piece
    requires mean == Expect(k, share, 0, piece, false) && second == Expect(k, share, 0, piece, true)
    ensures unit == chunks * share && moment == unit * unit + chunks * (share * (1.0 - share))
    ensures mean == piece * unit && second == d * moment
  {
    var e, square;
    e, unit := ExpectScales(k, share, 0, piece, false, piece);
    square, moment := ExpectScales(k, share, 0, piece, true, d);
    var m1 := ExpectLinear(k, share, 0);
    var m2 := ExpectSquare(k, share, 0);
    MeanIs(k, share, 0);
    SecondMomentIs(k, share, 0);
  }

  lemma VarianceAlgebra(c: real, x: real, r: real, q: real, mean: real, moment: real, e: real, second: real)
    requires c * x == r && x > 0.0 && mean == x * q && moment == mean * mean + x * (q * (1.0 - q))
    requires e == c * mean && second == c * c * moment
    ensures e == r * q
    ensures second - e * e == r * r * q * (1.0 - q) / x
  {
    var w := q * (1.0 - q);
    assert e == (c * x) * q;
    Distribute(c * c, mean * mean, x * w);
    assert c * c * (mean * mean) == e * e;
    assert c * c * (x * w) == c * (c * x) * w == c * r * w;
    assert c * r * w * x == (c * x) * r * w;
    assert r * r * w == r * r * q * (1.0 - q);
    QuotientIs(r * r * q * (1.0 - q), x, c * r * w);
  }
}

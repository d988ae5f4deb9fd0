// What the queue readings take, in whole numbers (src/exchange/queue_model.h:44-73,
// src/exchange/matching_engine.cpp:278-304).
module QueueFigures {
  import opened Reals
  import opened QueueModel

  // A rounded draw is the whole number nearest to the departing orders' share of the reduction, and the upper
  // one of two that are as near.
  lemma LumpyIsNearest(chunks: nat, reduction: nat, drawn: nat)
    requires chunks > 0 && drawn <= chunks
    ensures
      var x := LumpyRemoval(chunks, reduction, drawn);
      2 * chunks * x - chunks <= 2 * reduction * drawn < 2 * chunks * x + chunks
  {
    ShareBound(reduction, drawn, chunks);
    var share := reduction as real * drawn as real / chunks as real;
    NearestIs(share, Round(share), chunks as real, reduction as real * drawn as real);
    var x := LumpyRemoval(chunks, reduction, drawn);
    assert (x * chunks) as real == x as real * chunks as real;
    assert (reduction * drawn) as real == reduction as real * drawn as real;
    assert 2 * (x * chunks) - chunks <= 2 * (reduction * drawn) < 2 * (x * chunks) + chunks;
  }

  lemma NearestIs(share: real, x: int, k: real, product: real)
    requires k > 0.0 && share == product / k && x as real <= share + 0.5 < x as real + 1.0
    ensures 2.0 * (x as real * k) - k <= 2.0 * product < 2.0 * (x as real * k) + k
  {
    var whole := x as real;
    var low, high := share + 0.5 - whole, whole + 0.5 - share;
    NonNegative(low, k, low * k);
    ProductSign(high, k, high * k);
    assert share * k == product;
    assert low * k == share * k + 0.5 * k - whole * k && high * k == whole * k + 0.5 * k - share * k;
  }

  // Of a fall the conservative reading takes nothing from ahead of us, the optimistic one all of it, and the
  // pro-rata one the whole part of queue times fall over what was displayed.
  lemma AdvanceIs(queue: nat, previous: nat, reduction: nat)
    requires previous > 0
    ensures AdvanceQuantity(Conservative, 1, reduction, previous, queue, 0) == 0
    ensures AdvanceQuantity(Optimistic, 1, reduction, previous, queue, 0) == reduction
    ensures
      var x := AdvanceQuantity(ProRata, 1, reduction, previous, queue, 0);
      x * previous <= queue * reduction < (x + 1) * previous
  {
    var n := queue * reduction;
    assert n == n / previous * previous + n % previous;
  }

  // A displayed size that falls takes what the reading says out of the queue, and no more than there is; one
  // that does not leaves it.
  lemma QueueFalls(model: Model, queue: nat, previous: nat, shown: nat)
    requires !model.Lumpy?
    ensures shown >= previous ==> Advance(model, queue, previous, shown) == queue
    ensures shown < previous ==>
              var x := AdvanceQuantity(model, 1, previous - shown, previous, queue, 0);
              Advance(model, queue, previous, shown) == if x < queue then queue - x else 0
  {
  }

  // The share of a draw is the queue's part of what was displayed, or all of it when the queue is longer.
  lemma ShareIs(queue: nat, previous: nat)
    requires previous > 0
    ensures Share(queue, previous) * previous as real == (if queue < previous then queue else previous) as real
  {
    var ratio, d := queue as real / previous as real, previous as real;
    assert ratio * d == queue as real;
    if queue < previous {
      SignOfFactor(1.0 - ratio, d);
    } else {
      SignOfFactor(ratio - 1.0, d);
    }
  }
}

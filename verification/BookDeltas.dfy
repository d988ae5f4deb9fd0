// The rows that carry a book as changes, and what applying them to one side of a book does.
module BookDeltas {
  datatype BookSide = Bid | Ask

  // One level's new size; zero takes the level out. `recv` is the time the batches are cut by.
  datatype Delta = Delta(ts: nat, recv: nat, snapshot: bool, side: BookSide, price: string, amount: int)

  function Get<K>(book: map<K, int>, k: K): int {
    if k in book then book[k] else 0
  }

  function Put<K>(book: map<K, int>, k: K, amount: int): map<K, int> {
    if amount == 0 then book - {k} else book[k := amount]
  }

  // A book without empty levels.
  ghost predicate Solid<K>(book: map<K, int>) {
    forall k :: k in book ==> book[k] != 0
  }

  lemma SolidEqual<K>(a: map<K, int>, b: map<K, int>)
    requires Solid(a) && Solid(b) && forall k :: Get(a, k) == Get(b, k)
    ensures a == b
  {
    forall k ensures k in a <==> k in b {
      assert Get(a, k) == Get(b, k);
    }
    assert a.Keys == b.Keys;
    forall k | k in a ensures a[k] == b[k] {
      assert Get(a, k) == Get(b, k);
    }
  }

  // The rows of one side applied in order.
  function Fold(book: map<string, int>, ds: seq<Delta>, side: BookSide): map<string, int> {
    if ds == [] then book
    else
      var before, d := Fold(book, ds[..|ds| - 1], side), ds[|ds| - 1];
      if d.side == side then Put(before, d.price, d.amount) else before
  }

  function Touched(ds: seq<Delta>, side: BookSide): set<string> {
    set i | 0 <= i < |ds| && ds[i].side == side :: ds[i].price
  }

  lemma TouchedNext(ds: seq<Delta>, d: Delta, side: BookSide)
    ensures Touched(ds + [d], side) == Touched(ds, side) + if d.side == side then {d.price} else {}
  {
    var all := ds + [d];
    forall p | p in Touched(ds, side) ensures p in Touched(all, side) {
      var i :| 0 <= i < |ds| && ds[i].side == side && ds[i].price == p;
      assert all[i] == ds[i];
    }
    if d.side == side {
      assert all[|ds|].price == d.price;
    }
  }

  lemma {:induction false} FoldKeepsSolid(book: map<string, int>, ds: seq<Delta>, side: BookSide)
    requires Solid(book)
    ensures Solid(Fold(book, ds, side))
  {
    if ds != [] {
      FoldKeepsSolid(book, ds[..|ds| - 1], side);
    }
  }

  lemma {:induction false} FoldConcat(book: map<string, int>, a: seq<Delta>, b: seq<Delta>, side: BookSide)
    ensures Fold(book, a + b, side) == Fold(Fold(book, a, side), b, side)
  {
    if b == [] {
      assert a + b == a;
    } else {
      assert (a + b)[..|a + b| - 1] == a + b[..|b| - 1];
      FoldConcat(book, a, b[..|b| - 1], side);
    }
  }

  // Rows that all carry a target book's sizes leave that book's size on every level they touch, and the
  // old one elsewhere, in whatever order they come.
  lemma {:induction false} FoldAt(book: map<string, int>, ds: seq<Delta>, side: BookSide, target: map<string, int>,
                                  p: string)
    requires forall i :: 0 <= i < |ds| && ds[i].side == side ==> ds[i].amount == Get(target, ds[i].price)
    ensures Get(Fold(book, ds, side), p) == if p in Touched(ds, side) then Get(target, p) else Get(book, p)
  {
    if ds != [] {
      var before, d := ds[..|ds| - 1], ds[|ds| - 1];
      FoldAt(book, before, side, target, p);
      TouchedNext(before, d, side);
      assert before + [d] == ds;
    }
  }
}

// Rows of changes to books (tools/benchmark_l2_strategies.py:149-208): rows are taken in batches of one local
// time each, and after a batch the best levels of a two-sided, uncrossed book are recorded.
module BookDecoder {
  import opened BookDeltas
  import opened Exchange

  datatype View = View(ts: nat, bids: seq<(real, int)>, asks: seq<(real, int)>)

  datatype State = State(
    bids: map<real, int>,
    asks: map<real, int>,
    started: bool,
    snapshotActive: bool,
    timeline: seq<View>)
  {
    function Book(side: BookSide): map<real, int> {
      if side.Bid? then bids else asks
    }
  }

  const EMPTY_STATE := State(map[], map[], false, false, [])

  // A stretch of rows of one time joins the last batch, or becomes the next one.
  function Extend(batches: seq<seq<Delta>>, more: seq<Delta>): (b: seq<seq<Delta>>)
    requires more != [] && forall i :: 0 <= i < |batches| ==> batches[i] != []
    ensures b != [] && forall i :: 0 <= i < |b| ==> b[i] != []
  {
    if Joins(batches, more[0].recv)
    then batches[..|batches| - 1] + [batches[|batches| - 1] + more]
    else batches + [more]
  }

  predicate Joins(batches: seq<seq<Delta>>, recv: nat)
    requires forall i :: 0 <= i < |batches| ==> batches[i] != []
  {
    batches != [] && batches[|batches| - 1][0].recv == recv
  }

  // Maximal runs of rows with one local time.
  function Batches(ds: seq<Delta>): (b: seq<seq<Delta>>)
    ensures b == [] <==> ds == []
    ensures forall i :: 0 <= i < |b| ==> b[i] != []
  {
    if ds == [] then [] else Extend(Batches(ds[..|ds| - 1]), [ds[|ds| - 1]])
  }

  lemma ExtendTwice(batches: seq<seq<Delta>>, less: seq<Delta>, d: Delta)
    requires less != [] && less[0].recv == d.recv && forall i :: 0 <= i < |batches| ==> batches[i] != []
    ensures Extend(Extend(batches, less), [d]) == Extend(batches, less + [d])
  {
    var once := Extend(batches, less);
    if Joins(batches, d.recv) {
      assert batches[|batches| - 1] + less + [d] == batches[|batches| - 1] + (less + [d]);
    }
    assert once[..|once| - 1] == if Joins(batches, d.recv) then batches[..|batches| - 1] else batches;
  }

  // The same rows applied under the prices' values instead of their texts.
  function FoldValues(book: map<real, int>, ds: seq<Delta>, side: BookSide, value: string -> real): map<real, int> {
    if ds == [] then book
    else
      var before, d := FoldValues(book, ds[..|ds| - 1], side, value), ds[|ds| - 1];
      if d.side == side then Put(before, value(d.price), d.amount) else before
  }

  predicate ContainsSnapshot(batch: seq<Delta>) {
    exists i :: 0 <= i < |batch| && batch[i].snapshot
  }

  // ------------------------------------------------------------------------------------- the best levels

  predicate NoWorse(a: real, b: real, descending: bool) {
    if descending then a >= b else a <= b
  }

  lemma AnElement<T>(s: set<T>) returns (x: T)
    requires s != {}
    ensures x in s
  {
    x :| x in s;
  }

  lemma NoKeys<K, V>(m: map<K, V>)
    ensures m.Keys == {} ==> m == map[]
  {
  }

  lemma AKey<K, V>(m: map<K, V>) returns (k: K)
    requires m != map[]
    ensures k in m
  {
    NoKeys(m);
    k :| k in m;
  }

  lemma {:induction false} BestExists(keys: set<real>, descending: bool) returns (k: real)
    requires keys != {}
    ensures k in keys && forall x :: x in keys ==> NoWorse(k, x, descending)
    decreases keys
  {
    var any := AnElement(keys);
    if keys == {any} {
      k := any;
    } else {
      k := BestExists(keys - {any}, descending);
      assert forall x :: x in keys ==> x in keys - {any} || x == any;
      if NoWorse(any, k, descending) {
        k := any;
      }
    }
  }

  ghost function Best(book: map<real, int>, descending: bool): (k: real)
    requires book != map[]
    ensures k in book && forall x :: x in book ==> NoWorse(k, x, descending)
  {
    assert book.Keys != {} by { var k := AKey(book); }
    assert exists k :: k in book && forall x :: x in book ==> NoWorse(k, x, descending) by {
      var k := BestExists(book.Keys, descending);
    }
    var k :| k in book && forall x :: x in book ==> NoWorse(k, x, descending);
    k
  }

  ghost function TopLevels(book: map<real, int>, n: nat, descending: bool): seq<(real, int)> {
    if n == 0 || book == map[] then []
    else
      var k := Best(book, descending);
      [(k, book[k])] + TopLevels(book - {k}, n - 1, descending)
  }

  // One price is strictly better than another.
  predicate Better(a: real, b: real, descending: bool) {
    if descending then a > b else a < b
  }

  // Levels of a book, best first, and none left out before a worse one.
  ghost predicate BestOf(top: seq<(real, int)>, book: map<real, int>, n: nat, descending: bool) {
    && |top| == (if n < |book| then n else |book|)
    && (forall i :: 0 <= i < |top| ==> top[i].0 in book && top[i].1 == book[top[i].0])
    && (forall i, j :: 0 <= i < j < |top| ==> Better(top[i].0, top[j].0, descending))
    && forall x :: x in book ==> x in Prices(top) || forall i :: 0 <= i < |top| ==> Better(top[i].0, x, descending)
  }

  function Prices(top: seq<(real, int)>): set<real> {
    set i | 0 <= i < |top| :: top[i].0
  }

  lemma {:induction false} TopIsBestOf(book: map<real, int>, n: nat, descending: bool, top: seq<(real, int)>)
    requires top == TopLevels(book, n, descending)
    ensures BestOf(top, book, n, descending)
  {
    if n > 0 && book != map[] {
      var k := Best(book, descending);
      var rest := top[1..];
      TopIsBestOf(book - {k}, n - 1, descending, rest);
      WithoutOne(book, k);
      FirstIsBest(book, k, rest, n, descending, top);
    } else {
      assert n > 0 ==> |book| == 0;
    }
  }

  lemma WithoutOne(book: map<real, int>, k: real)
    requires k in book
    ensures |book - {k}| == |book| - 1
  {
    assert (book - {k}).Keys == book.Keys - {k};
  }

  lemma FirstIsBest(book: map<real, int>, k: real, rest: seq<(real, int)>, n: nat, descending: bool,
                    top: seq<(real, int)>)
    requires n > 0 && k in book && |book - {k}| == |book| - 1
    requires forall x :: x in book ==> NoWorse(k, x, descending)
    requires BestOf(rest, book - {k}, n - 1, descending) && top == [(k, book[k])] + rest
    ensures BestOf(top, book, n, descending)
  {
    forall x | x in book ensures x in Prices(top) || forall i :: 0 <= i < |top| ==> Better(top[i].0, x, descending) {
      if x == k {
        assert top[0].0 == x;
      } else if x in Prices(rest) {
        var i :| 0 <= i < |rest| && rest[i].0 == x;
        assert top[i + 1].0 == x;
      } else {
        assert x in book - {k};
      }
    }
  }

  method FindBest(book: map<real, int>, descending: bool) returns (k: real)
    requires book != map[]
    ensures k == Best(book, descending)
  {
    ghost var some := AKey(book);
    k :| k in book;
    var todo := book.Keys - {k};
    while todo != {}
      invariant k in book && k !in todo && todo <= book.Keys
      invariant forall x :: x in book && x !in todo ==> NoWorse(k, x, descending)
      decreases todo
    {
      ghost var some := AnElement(todo);
      var x :| x in todo;
      todo := todo - {x};
      if !NoWorse(k, x, descending) {
        k := x;
      }
    }
  }

  method Top(book: map<real, int>, levels: nat, descending: bool) returns (top: seq<(real, int)>)
    ensures top == TopLevels(book, levels, descending)
  {
    var rest, n := book, levels;
    top := [];
    while n > 0 && rest != map[]
      invariant top + TopLevels(rest, n, descending) == TopLevels(book, levels, descending)
      decreases n
    {
      var k := FindBest(rest, descending);
      top := top + [(k, rest[k])];
      rest := rest - {k};
      n := n - 1;
    }
  }

  lemma TopIsBest(book: map<real, int>, n: nat, descending: bool)
    requires n > 0 && book != map[]
    ensures TopLevels(book, n, descending) != [] && TopLevels(book, n, descending)[0].0 == Best(book, descending)
  {
  }

  // ------------------------------------------------------------------------------------------ one batch

  // The books a batch starts from: none, when it opens a run of snapshots.
  function BaseFor(st: State, batch: seq<Delta>, side: BookSide): map<real, int> {
    if ContainsSnapshot(batch) && !st.snapshotActive then map[] else st.Book(side)
  }

  ghost predicate Shows(started: bool, bids: map<real, int>, asks: map<real, int>) {
    started && bids != map[] && asks != map[] && Best(bids, true) < Best(asks, false)
  }

  ghost function Emitted(st: State, batch: seq<Delta>, levels: nat, value: string -> real): State {
    if batch == [] then st
    else
      var bids := FoldValues(BaseFor(st, batch, Bid), batch, Bid, value);
      var asks := FoldValues(BaseFor(st, batch, Ask), batch, Ask, value);
      var started := st.started || ContainsSnapshot(batch);
      var view := View(batch[|batch| - 1].ts, TopLevels(bids, levels, true), TopLevels(asks, levels, false));
      State(bids, asks, started, ContainsSnapshot(batch),
            if Shows(started, bids, asks) then st.timeline + [view] else st.timeline)
  }

  // After a batch its last time and the best levels are recorded if and only if a snapshot has been seen, both
  // sides hold something, and every bid is below every ask.
  lemma ViewIsTaken(st: State, batch: seq<Delta>, levels: nat, value: string -> real)
    requires batch != []
    ensures
      var n := Emitted(st, batch, levels, value);
      var seen := st.started || exists i :: 0 <= i < |batch| && batch[i].snapshot;
      var open := n.bids != map[] && n.asks != map[] && forall b, a :: b in n.bids && a in n.asks ==> b < a;
      if seen && open
      then
        && |n.timeline| == |st.timeline| + 1 && n.timeline[..|st.timeline|] == st.timeline
        && var view := n.timeline[|st.timeline|];
        && view.ts == batch[|batch| - 1].ts
        && BestOf(view.bids, n.bids, levels, true) && BestOf(view.asks, n.asks, levels, false)
      else n.timeline == st.timeline
  {
    var n := Emitted(st, batch, levels, value);
    TopIsBestOf(n.bids, levels, true, TopLevels(n.bids, levels, true));
    TopIsBestOf(n.asks, levels, false, TopLevels(n.asks, levels, false));
    if n.bids != map[] && n.asks != map[] {
      UncrossedIsBest(n.bids, n.asks);
    }
  }

  lemma UncrossedIsBest(bids: map<real, int>, asks: map<real, int>)
    requires bids != map[] && asks != map[]
    ensures Best(bids, true) < Best(asks, false) <==> forall b, a :: b in bids && a in asks ==> b < a
  {
    forall b, a | b in bids && a in asks && Best(bids, true) < Best(asks, false) ensures b < a {
      assert NoWorse(Best(bids, true), b, true) && NoWorse(Best(asks, false), a, false);
    }
  }

  ghost function EmitAll(batches: seq<seq<Delta>>, levels: nat, value: string -> real): State {
    if batches == [] then EMPTY_STATE
    else Emitted(EmitAll(batches[..|batches| - 1], levels, value), batches[|batches| - 1], levels, value)
  }

  class Decoder {
    const value: string -> real
    const levels: nat
    var bids: map<real, int>
    var asks: map<real, int>
    var started: bool
    var snapshotActive: bool
    var timeline: seq<View>

    ghost function Held(): State
      reads this
    {
      State(bids, asks, started, snapshotActive, timeline)
    }

    constructor (value: string -> real, levels: nat)
      ensures this.value == value && this.levels == levels && Held() == EMPTY_STATE
    {
      this.value, this.levels := value, levels;
      bids, asks, started, snapshotActive, timeline := map[], map[], false, false, [];
    }

    method ApplyRows(current: seq<Delta>)
      modifies this`bids, this`asks
      ensures bids == FoldValues(old(bids), current, Bid, value) && asks == FoldValues(old(asks), current, Ask, value)
    {
      for i := 0 to |current|
        invariant bids == FoldValues(old(bids), current[..i], Bid, value)
        invariant asks == FoldValues(old(asks), current[..i], Ask, value)
      {
        var row := current[i];
        assert current[..i + 1][..i] == current[..i];
        var price := value(row.price);
        if row.side.Bid? {
          bids := if row.amount == 0 then bids - {price} else bids[price := row.amount];
        } else {
          asks := if row.amount == 0 then asks - {price} else asks[price := row.amount];
        }
      }
      assert current[..|current|] == current;
    }

    // Records the best levels of the book as it stands, if it is one to record.
    method Record(ts: nat)
      requires levels > 0
      modifies this`timeline
      ensures
        var view := View(ts, TopLevels(bids, levels, true), TopLevels(asks, levels, false));
        timeline == if Shows(started, bids, asks) then old(timeline) + [view] else old(timeline)
    {
      if !started || bids == map[] || asks == map[] {
        return;
      }
      var bidLevels := Top(bids, levels, true);
      var askLevels := Top(asks, levels, false);
      TopIsBest(bids, levels, true);
      TopIsBest(asks, levels, false);
      if bidLevels[0].0 >= askLevels[0].0 {
        return;
      }
      timeline := timeline + [View(ts, bidLevels, askLevels)];
    }

    method Emit(current: seq<Delta>)
      requires levels > 0
      modifies this
      ensures Held() == Emitted(old(Held()), current, levels, value)
    {
      if current == [] {
        return;
      }
      var containsSnapshot := exists i :: 0 <= i < |current| && current[i].snapshot;
      if containsSnapshot && !snapshotActive {
        bids, asks := map[], map[];
      }
      snapshotActive := containsSnapshot;
      ApplyRows(current);
      started := started || containsSnapshot;
      Record(current[|current| - 1].ts);
    }

    // The whole file: the rows of one local time are applied together when the next one begins.
    method Reconstruct(ds: seq<Delta>)
      requires levels > 0 && Held() == EMPTY_STATE
      modifies this
      ensures Held() == EmitAll(Batches(ds), levels, value)
    {
      var batch: seq<Delta> := [];
      for i := 0 to |ds|
        invariant Reading(Held(), ds[..i], batch)
      {
        var row := ds[i];
        assert ds[..i + 1] == ds[..i] + [row];
        ReadingNext(Held(), ds[..i], batch, row);
        if batch != [] && row.recv != batch[0].recv {
          Emit(batch);
          batch := [];
        }
        batch := batch + [row];
      }
      assert ds[..|ds|] == ds;
      ReadingEnds(Held(), ds, batch);
      Emit(batch);
    }

    // The rows so far: every batch but the last has been emitted.
    ghost predicate Reading(st: State, ds: seq<Delta>, batch: seq<Delta>) {
      if ds == [] then batch == [] && st == EMPTY_STATE
      else
        var b := Batches(ds);
        batch == b[|b| - 1] && st == EmitAll(b[..|b| - 1], levels, value)
    }

    lemma ReadingNext(st: State, ds: seq<Delta>, batch: seq<Delta>, d: Delta)
      requires Reading(st, ds, batch)
      ensures if batch != [] && d.recv != batch[0].recv
              then Reading(Emitted(st, batch, levels, value), ds + [d], [d]) else Reading(st, ds + [d], batch + [d])
    {
      BatchesNext(ds, d);
      var b, c := Batches(ds), Batches(ds + [d]);
      if ds == [] {
        assert c == [[d]] && c[..0] == [];
      } else if d.recv != batch[0].recv {
        assert c == b + [[d]] && c[..|c| - 1] == b;
      } else {
        assert c[..|c| - 1] == b[..|b| - 1];
      }
    }

    lemma ReadingEnds(st: State, ds: seq<Delta>, batch: seq<Delta>)
      requires Reading(st, ds, batch)
      ensures Emitted(st, batch, levels, value) == EmitAll(Batches(ds), levels, value)
    {
    }
  }

  lemma BatchesNext(ds: seq<Delta>, d: Delta)
    ensures Batches(ds + [d]) == Extend(Batches(ds), [d])
  {
    assert (ds + [d])[..|ds|] == ds;
  }

  lemma {:induction false} BatchesJoin(ds: seq<Delta>, more: seq<Delta>, recv: nat)
    requires more != [] && forall i :: 0 <= i < |more| ==> more[i].recv == recv
    ensures Batches(ds + more) == Extend(Batches(ds), more)
  {
    if |more| == 1 {
      assert more == [more[0]];
      BatchesNext(ds, more[0]);
    } else {
      var less, d := more[..|more| - 1], more[|more| - 1];
      assert less[0].recv == recv == d.recv && more == less + [d];
      BatchesJoin(ds, less, recv);
      BatchesNext(ds + less, d);
      ExtendTwice(Batches(ds), less, d);
      Regroup(ds, less, [d]);
    }
  }

  lemma Regroup(a: seq<Delta>, b: seq<Delta>, c: seq<Delta>)
    ensures a + b + c == a + (b + c)
  {
  }
}

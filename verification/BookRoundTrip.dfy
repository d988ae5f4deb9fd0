// The converter's rows through the batch decoder (tools/fetch_databento.py:145-232,
// tools/benchmark_l2_strategies.py:149-208): after every batch the decoder holds the vendor's book.
module BookRoundTrip {
  import opened BookDeltas
  import opened BookEncoder
  import opened BookDecoder

  // ---------------------------------------------------------------------- the decoder under price texts

  // One side of the decoder's books, and whether its last batch held a snapshot.
  datatype TextState = TextState(book: map<string, int>, snapshotActive: bool)

  function TextBase(st: TextState, batch: seq<Delta>): map<string, int> {
    if ContainsSnapshot(batch) && !st.snapshotActive then map[] else st.book
  }

  function TextEmitted(st: TextState, batch: seq<Delta>, side: BookSide): TextState {
    TextState(Fold(TextBase(st, batch), batch, side), ContainsSnapshot(batch))
  }

  function TextAll(batches: seq<seq<Delta>>, side: BookSide): TextState {
    if batches == [] then TextState(map[], false)
    else TextEmitted(TextAll(batches[..|batches| - 1], side), batches[|batches| - 1], side)
  }

  // ---------------------------------------------------------------------------- one open batch at a time

  // What is kept while rows are read: the batches before the last one leave the vendor's book of the row
  // they end with; the last batch takes that book to the current one, and takes an empty book to a part of
  // it, which is all of it once a snapshot is in the batch.
  ghost predicate InStep(ds: seq<Delta>, side: BookSide, current: map<string, int>) {
    if ds == [] then current == map[]
    else
      var b := Batches(ds);
      var before, last := TextAll(b[..|b| - 1], side), b[|b| - 1];
      && Fold(before.book, last, side) == current
      && Part(Fold(map[], last, side), current)
      && (ContainsSnapshot(last) ==> Fold(map[], last, side) == current)
  }

  // Whatever the last batch does to the books it starts from, it ends at the current one.
  lemma InStepEnds(ds: seq<Delta>, side: BookSide, current: map<string, int>)
    requires InStep(ds, side, current)
    ensures TextAll(Batches(ds), side).book == current
  {
  }

  // The rows of one record.
  ghost predicate OneRow(row: seq<Delta>, side: BookSide, previous: map<string, int>, block: map<string, int>,
                         recv: nat, snapshot: bool) {
    && row != []
    && (forall i :: 0 <= i < |row| ==> row[i].recv == recv && row[i].snapshot == snapshot)
    && SideWritten(row, side, previous, block, snapshot)
  }

  lemma SnapshotIn(a: seq<Delta>, b: seq<Delta>)
    ensures ContainsSnapshot(a + b) <==> ContainsSnapshot(a) || ContainsSnapshot(b)
  {
    if ContainsSnapshot(a) {
      var i :| 0 <= i < |a| && a[i].snapshot;
      assert (a + b)[i].snapshot;
    }
    if ContainsSnapshot(b) {
      var i :| 0 <= i < |b| && b[i].snapshot;
      assert (a + b)[|a| + i].snapshot;
    }
    if ContainsSnapshot(a + b) {
      var i :| 0 <= i < |a + b| && (a + b)[i].snapshot;
      assert if i < |a| then a[i].snapshot else b[i - |a|].snapshot;
    }
  }

  // The record joins the open batch.
  lemma RowJoins(before: map<string, int>, last: seq<Delta>, row: seq<Delta>, side: BookSide,
                 previous: map<string, int>, block: map<string, int>, recv: nat, snapshot: bool)
    requires OneRow(row, side, previous, block, recv, snapshot) && Solid(previous)
    requires Fold(before, last, side) == previous && Part(Fold(map[], last, side), previous)
    requires ContainsSnapshot(last) ==> Fold(map[], last, side) == previous
    ensures Fold(before, last + row, side) == Firm(block)
    ensures Part(Fold(map[], last + row, side), Firm(block))
    ensures ContainsSnapshot(last + row) ==> Fold(map[], last + row, side) == Firm(block)
  {
    FoldConcat(before, last, row, side);
    FoldConcat(map[], last, row, side);
    RowRebuilds(row, side, previous, previous, block, snapshot);
    RowRebuilds(row, side, Fold(map[], last, side), previous, block, snapshot);
    SnapshotIn(last, row);
  }

  // The record opens the next batch.
  lemma RowOpens(row: seq<Delta>, side: BookSide, previous: map<string, int>, block: map<string, int>, recv: nat,
                 snapshot: bool)
    requires OneRow(row, side, previous, block, recv, snapshot) && Solid(previous)
    ensures Fold(previous, row, side) == Firm(block)
    ensures Part(Fold(map[], row, side), Firm(block))
    ensures ContainsSnapshot(row) ==> Fold(map[], row, side) == Firm(block)
  {
    RowRebuilds(row, side, previous, previous, block, snapshot);
    RowRebuilds(row, side, map[], previous, block, snapshot);
  }

  lemma RowKeepsStep(ds: seq<Delta>, row: seq<Delta>, side: BookSide, previous: map<string, int>,
                     block: map<string, int>, recv: nat, snapshot: bool)
    requires InStep(ds, side, previous) && Solid(previous)
    requires OneRow(row, side, previous, block, recv, snapshot)
    ensures InStep(ds + row, side, Firm(block))
  {
    BatchesJoin(ds, row, recv);
    var b, c := Batches(ds), Batches(ds + row);
    if Joins(b, recv) {
      var last := b[|b| - 1];
      assert c[..|c| - 1] == b[..|b| - 1] && c[|c| - 1] == last + row;
      RowJoins(TextAll(b[..|b| - 1], side).book, last, row, side, previous, block, recv, snapshot);
    } else {
      assert c[..|c| - 1] == b && c[|c| - 1] == row;
      if ds != [] {
        InStepEnds(ds, side, previous);
      }
      RowOpens(row, side, previous, block, recv, snapshot);
    }
  }

  // A record that changes nothing writes nothing, unless it is an empty book's snapshot.
  lemma SilentRow(side: BookSide, previous: map<string, int>, block: map<string, int>, snapshot: bool)
    requires SideWritten([], side, previous, block, snapshot) && Solid(previous)
    ensures Firm(block) == previous
  {
    RowRebuilds([], side, previous, previous, block, snapshot);
  }

  lemma PrefixGrows(segments: seq<seq<Delta>>, m: nat)
    requires m < |segments|
    ensures Flatten(segments[..m + 1]) == Flatten(segments[..m]) + segments[m]
  {
    assert segments[..m + 1][..m] == segments[..m];
  }

  lemma SegmentIsRow(segments: seq<seq<Delta>>, kept: seq<Row>, m: nat, side: BookSide)
    requires Encodes(segments, kept) && m < |kept|
    ensures
      var block, snapshot := Block(kept[m].Levels(side)), Snapshots(kept, m);
      && SideWritten(segments[m], side, BookBefore(kept, m, side), block, snapshot)
      && (segments[m] != [] ==> OneRow(segments[m], side, BookBefore(kept, m, side), block, kept[m].recv, snapshot))
  {
    assert Written(segments[m], kept, m);
  }

  lemma NextRowInStep(segments: seq<seq<Delta>>, kept: seq<Row>, m: nat, side: BookSide)
    requires Encodes(segments, kept) && m < |kept|
    requires InStep(Flatten(segments[..m]), side, BookBefore(kept, m, side))
    ensures InStep(Flatten(segments[..m + 1]), side, BookBefore(kept, m + 1, side))
  {
    PrefixGrows(segments, m);
    SegmentIsRow(segments, kept, m, side);
    RowInStep(Flatten(segments[..m]), segments[m], side, BookBefore(kept, m, side), Block(kept[m].Levels(side)),
              kept[m].recv, Snapshots(kept, m));
  }

  lemma RowInStep(ds: seq<Delta>, row: seq<Delta>, side: BookSide, previous: map<string, int>,
                  block: map<string, int>, recv: nat, snapshot: bool)
    requires InStep(ds, side, previous) && Solid(previous) && SideWritten(row, side, previous, block, snapshot)
    requires row != [] ==> OneRow(row, side, previous, block, recv, snapshot)
    ensures InStep(ds + row, side, Firm(block))
  {
    if row == [] {
      SilentRow(side, previous, block, snapshot);
      assert ds + row == ds;
    } else {
      RowKeepsStep(ds, row, side, previous, block, recv, snapshot);
    }
  }

  lemma {:induction false} RowsStayInStep(segments: seq<seq<Delta>>, kept: seq<Row>, m: nat, side: BookSide)
    requires Encodes(segments, kept) && m <= |kept|
    ensures InStep(Flatten(segments[..m]), side, BookBefore(kept, m, side))
  {
    if m > 0 {
      RowsStayInStep(segments, kept, m - 1, side);
      NextRowInStep(segments, kept, m - 1, side);
    }
  }

  // Stopping the file after any kept row, the decoder holds that row's vendor book.
  lemma PrefixRebuilds(segments: seq<seq<Delta>>, kept: seq<Row>, m: nat, side: BookSide)
    requires Encodes(segments, kept) && m <= |kept|
    ensures TextAll(Batches(Flatten(segments[..m])), side).book == BookBefore(kept, m, side)
  {
    RowsStayInStep(segments, kept, m, side);
    if Flatten(segments[..m]) != [] {
      InStepEnds(Flatten(segments[..m]), side, BookBefore(kept, m, side));
    }
  }

  // The rows of one segment share their local time.
  ghost predicate Uniform(row: seq<Delta>, recv: nat) {
    forall i :: 0 <= i < |row| ==> row[i].recv == recv
  }

  ghost predicate AllUniform(segments: seq<seq<Delta>>, recvs: seq<nat>) {
    |segments| == |recvs| && forall m :: 0 <= m < |segments| ==> Uniform(segments[m], recvs[m])
  }

  function Times(kept: seq<Row>): (t: seq<nat>)
    ensures |t| == |kept| && forall m :: 0 <= m < |kept| ==> t[m] == kept[m].recv
  {
    if kept == [] then [] else Times(kept[..|kept| - 1]) + [kept[|kept| - 1].recv]
  }

  lemma EncodedAreUniform(segments: seq<seq<Delta>>, kept: seq<Row>)
    requires Encodes(segments, kept)
    ensures AllUniform(segments, Times(kept))
  {
    forall m | 0 <= m < |segments| ensures Uniform(segments[m], Times(kept)[m]) {
      assert Written(segments[m], kept, m);
    }
  }

  // One more segment leaves all the batches but the last as they were.
  lemma SegmentExtends(ds: seq<Delta>, row: seq<Delta>, recv: nat, j: nat)
    requires Uniform(row, recv) && j <= |Batches(ds + row)|
    ensures j == |Batches(ds + row)| || (j <= |Batches(ds)| && Batches(ds + row)[..j] == Batches(ds)[..j])
    ensures row == [] ==> Batches(ds + row) == Batches(ds)
  {
    if row == [] {
      assert ds + row == ds;
    } else {
      BatchesJoin(ds, row, recv);
      if j < |Batches(ds + row)| {
        ExtendedPrefix(Batches(ds), row, j);
      }
    }
  }

  lemma ExtendedPrefix(batches: seq<seq<Delta>>, row: seq<Delta>, j: nat)
    requires row != [] && forall i :: 0 <= i < |batches| ==> batches[i] != []
    requires j < |Extend(batches, row)|
    ensures j <= |batches| && Extend(batches, row)[..j] == batches[..j]
  {
  }

  // Every batch ends with a kept row: the first `j` batches are those of the first `m` rows, the last of
  // which wrote something.
  lemma {:induction false} BatchesEndWithRows(segments: seq<seq<Delta>>, recvs: seq<nat>, n: nat, j: nat) returns (m: nat)
    requires AllUniform(segments, recvs) && n <= |segments|
    requires j <= |Batches(Flatten(segments[..n]))|
    ensures m <= n && Batches(Flatten(segments[..m])) == Batches(Flatten(segments[..n]))[..j]
    ensures j > 0 ==> m > 0 && segments[m - 1] != []
  {
    if j == 0 {
      m := 0;
    } else {
      PrefixGrows(segments, n - 1);
      var ds, row := Flatten(segments[..n - 1]), segments[n - 1];
      SegmentExtends(ds, row, recvs[n - 1], j);
      if j == |Batches(ds + row)| && row != [] {
        m := n;
      } else {
        m := BatchesEndWithRows(segments, recvs, n - 1, j);
      }
    }
  }

  // ------------------------------------------------------------------- prices as values, not as texts

  ghost predicate OneTextPerPrice(ds: seq<Delta>, value: string -> real) {
    forall i, j :: 0 <= i < |ds| && 0 <= j < |ds| ==>
      value(ds[i].price) == value(ds[j].price) ==> ds[i].price == ds[j].price
  }

  // The book under values is the book under texts, level by level.
  ghost predicate Same(book: map<real, int>, texts: map<string, int>, value: string -> real) {
    && (forall p :: p in texts ==> value(p) in book && book[value(p)] == texts[p])
    && forall x :: x in book ==> exists p :: p in texts && value(p) == x
  }

  ghost predicate Injective(texts: set<string>, value: string -> real) {
    forall p, q :: p in texts && q in texts && value(p) == value(q) ==> p == q
  }

  lemma PutKeepsSame(book: map<real, int>, texts: map<string, int>, p: string, amount: int, value: string -> real)
    requires Same(book, texts, value) && Injective(texts.Keys + {p}, value)
    ensures Same(Put(book, value(p), amount), Put(texts, p, amount), value)
  {
    var b, t := Put(book, value(p), amount), Put(texts, p, amount);
    forall x | x in b ensures exists q :: q in t && value(q) == x {
      if x == value(p) {
        assert p in t;
      } else {
        var q :| q in texts && value(q) == x;
        assert q in t;
      }
    }
  }

  lemma {:induction false} FoldKeepsSame(book: map<real, int>, texts: map<string, int>, ds: seq<Delta>, side: BookSide,
                                         value: string -> real, names: set<string>)
    requires Same(book, texts, value) && Injective(names, value) && texts.Keys <= names
    requires forall i :: 0 <= i < |ds| ==> ds[i].price in names
    ensures Same(FoldValues(book, ds, side, value), Fold(texts, ds, side), value)
    ensures Fold(texts, ds, side).Keys <= names
  {
    if ds != [] {
      var before, d := ds[..|ds| - 1], ds[|ds| - 1];
      FoldKeepsSame(book, texts, before, side, value, names);
      if d.side == side {
        PutKeepsSame(FoldValues(book, before, side, value), Fold(texts, before, side), d.price, d.amount, value);
      }
    }
  }

  lemma EmptyIsSame(value: string -> real)
    ensures Same(map[], map[], value)
  {
  }

  lemma {:induction false} DecoderIsText(batches: seq<seq<Delta>>, side: BookSide, levels: nat, value: string -> real,
                                         names: set<string>)
    requires Injective(names, value)
    requires forall i :: 0 <= i < |batches| ==>
               batches[i] != [] && forall k :: 0 <= k < |batches[i]| ==> batches[i][k].price in names
    ensures
      var st, t := EmitAll(batches, levels, value), TextAll(batches, side);
      && Same(st.Book(side), t.book, value) && t.book.Keys <= names
      && st.snapshotActive == t.snapshotActive
  {
    EmptyIsSame(value);
    if batches != [] {
      var before, last := batches[..|batches| - 1], batches[|batches| - 1];
      DecoderIsText(before, side, levels, value, names);
      var st, t := EmitAll(before, levels, value), TextAll(before, side);
      FoldKeepsSame(BaseFor(st, last, side), TextBase(t, last), last, side, value, names);
    }
  }

  // ------------------------------------------------------------------------------------ the round trip

  function Names(ds: seq<Delta>): set<string> {
    set i | 0 <= i < |ds| :: ds[i].price
  }

  ghost predicate NamedIn(ds: seq<Delta>, names: set<string>) {
    forall i :: 0 <= i < |ds| ==> ds[i].price in names
  }

  lemma {:induction false} BatchesNamed(ds: seq<Delta>, names: set<string>, i: nat)
    requires NamedIn(ds, names) && i < |Batches(ds)|
    ensures NamedIn(Batches(ds)[i], names)
  {
    var before, d := ds[..|ds| - 1], ds[|ds| - 1];
    if i < |Batches(before)| {
      BatchesNamed(before, names, i);
    }
  }

  lemma {:induction false} FirstBatch(ds: seq<Delta>)
    requires ds != []
    ensures Batches(ds)[0][0] == ds[0]
  {
    if |ds| > 1 {
      FirstBatch(ds[..|ds| - 1]);
    }
  }

  lemma {:induction false} FirstSnapshotStarts(batches: seq<seq<Delta>>, levels: nat, value: string -> real)
    requires batches != [] && batches[0] != [] && batches[0][0].snapshot
    requires forall i :: 0 <= i < |batches| ==> batches[i] != []
    ensures EmitAll(batches, levels, value).started
  {
    if |batches| == 1 {
      assert batches[..0] == [];
      assert ContainsSnapshot(batches[0]);
    } else {
      FirstSnapshotStarts(batches[..|batches| - 1], levels, value);
    }
  }

  lemma {:induction false} FlattenStarts(segments: seq<seq<Delta>>)
    requires segments != [] && segments[0] != []
    ensures Flatten(segments) != [] && Flatten(segments)[0] == segments[0][0]
  {
    if |segments| > 1 {
      FlattenStarts(segments[..|segments| - 1]);
    } else {
      assert segments[..0] == [];
    }
  }

  // A book under values holds the vendor's levels: the last size of each price that is not left out and not
  // zero, and nothing else.
  ghost predicate HoldsLevels(book: map<real, int>, levels: seq<Level>, value: string -> real) {
    && (forall p, i :: LastOf(levels, p, i) && levels[i].size != 0 ==> value(p) in book && book[value(p)] == levels[i].size)
    && forall x :: x in book ==> exists p, i :: LastOf(levels, p, i) && levels[i].size != 0 && value(p) == x
  }

  lemma SameLevels(book: map<real, int>, levels: seq<Level>, value: string -> real)
    requires Same(book, Firm(Block(levels)), value)
    ensures HoldsLevels(book, levels, value)
  {
    forall p, i | LastOf(levels, p, i) && levels[i].size != 0
      ensures value(p) in book && book[value(p)] == levels[i].size
    {
      BlockIsLastLevels(levels, p);
    }
    forall x | x in book ensures exists p, i :: LastOf(levels, p, i) && levels[i].size != 0 && value(p) == x {
      var p :| p in Firm(Block(levels)) && value(p) == x;
      BlockIsLastLevels(levels, p);
      var i :| LastOf(levels, p, i);
      assert levels[i].size != 0;
    }
  }

  lemma {:induction false} LastOfBatches(ds: seq<Delta>)
    requires ds != []
    ensures
      var b := Batches(ds);
      b[|b| - 1][|b[|b| - 1]| - 1] == ds[|ds| - 1]
  {
  }

  // The last batch ends with the times of the row it ends with.
  lemma LastBatchEnds(segments: seq<seq<Delta>>, kept: seq<Row>, m: nat)
    requires Encodes(segments, kept) && 0 < m <= |kept| && segments[m - 1] != []
    ensures
      var b := Batches(Flatten(segments[..m]));
      && b != [] && var last := b[|b| - 1];
      last[|last| - 1].ts == kept[m - 1].ts && last[|last| - 1].recv == kept[m - 1].recv
  {
    PrefixGrows(segments, m - 1);
    LastOfBatches(Flatten(segments[..m]));
    assert Written(segments[m - 1], kept, m - 1);
  }

  // After each batch of the file the decoder holds exactly the levels of the last kept row that the batch
  // covers, with resets inside a batch, batches of snapshots in a row and dropped rows included, and the
  // batch ends with that row's times. It has started by then, if the first kept book was not empty.
  lemma EveryBatchIsAVendorBook(segments: seq<seq<Delta>>, kept: seq<Row>, levels: nat, value: string -> real, j: nat)
    returns (m: nat)
    requires Encodes(segments, kept) && OneTextPerPrice(Flatten(segments), value)
    requires 0 < j <= |Batches(Flatten(segments))|
    ensures 0 < m <= |kept| && segments[m - 1] != []
    ensures Batches(Flatten(segments[..m])) == Batches(Flatten(segments))[..j]
    ensures
      var st := EmitAll(Batches(Flatten(segments))[..j], levels, value);
      && HoldsLevels(st.bids, kept[m - 1].bids, value) && HoldsLevels(st.asks, kept[m - 1].asks, value)
      && (segments[0] != [] ==> st.started)
    ensures
      var batch := Batches(Flatten(segments))[j - 1];
      batch[|batch| - 1].ts == kept[m - 1].ts && batch[|batch| - 1].recv == kept[m - 1].recv
  {
    var ds := Flatten(segments);
    assert segments[..|segments|] == segments;
    EncodedAreUniform(segments, kept);
    m := BatchesEndWithRows(segments, Times(kept), |segments|, j);
    SideHolds(segments, kept, levels, value, j, m, Bid);
    SideHolds(segments, kept, levels, value, j, m, Ask);
    LastBatchEnds(segments, kept, m);
    if segments[0] != [] {
      FlattenStarts(segments);
      FirstBatch(ds);
      FirstIsSnapshot(segments, kept);
      FirstSnapshotStarts(Batches(ds)[..j], levels, value);
    }
  }

  lemma SideHolds(segments: seq<seq<Delta>>, kept: seq<Row>, levels: nat, value: string -> real, j: nat, m: nat,
                  side: BookSide)
    requires Encodes(segments, kept) && OneTextPerPrice(Flatten(segments), value)
    requires 0 < j <= |Batches(Flatten(segments))| && 0 < m <= |kept|
    requires Batches(Flatten(segments[..m])) == Batches(Flatten(segments))[..j]
    ensures HoldsLevels(EmitAll(Batches(Flatten(segments))[..j], levels, value).Book(side), kept[m - 1].Levels(side), value)
  {
    SideIsVendor(segments, kept, levels, value, j, m, side);
    SameLevels(EmitAll(Batches(Flatten(segments))[..j], levels, value).Book(side), kept[m - 1].Levels(side), value);
  }

  lemma FirstIsSnapshot(segments: seq<seq<Delta>>, kept: seq<Row>)
    requires Encodes(segments, kept) && segments != [] && segments[0] != []
    ensures segments[0][0].snapshot
  {
    assert Written(segments[0], kept, 0);
  }

  lemma SideIsVendor(segments: seq<seq<Delta>>, kept: seq<Row>, levels: nat, value: string -> real, j: nat, m: nat,
                     side: BookSide)
    requires Encodes(segments, kept) && OneTextPerPrice(Flatten(segments), value)
    requires 0 < j <= |Batches(Flatten(segments))| && 0 < m <= |kept|
    requires Batches(Flatten(segments[..m])) == Batches(Flatten(segments))[..j]
    ensures Same(EmitAll(Batches(Flatten(segments))[..j], levels, value).Book(side), VendorBook(kept[m - 1], side), value)
  {
    var ds := Flatten(segments);
    var names := Names(ds);
    var batches: seq<seq<Delta>> := Batches(ds)[..j];
    forall i | 0 <= i < |batches|
      ensures batches[i] != [] && forall k :: 0 <= k < |batches[i]| ==> batches[i][k].price in names
    {
      BatchesNamed(ds, names, i);
    }
    DecoderIsText(batches, side, levels, value, names);
    PrefixRebuilds(segments, kept, m, side);
  }
}

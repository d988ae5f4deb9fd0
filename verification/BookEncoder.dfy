// Full books to rows of changes (tools/fetch_databento.py:129-232): the vendor sends every level of a book
// with every record, and the converter writes what changed since the last one it kept.
module BookEncoder {
  import opened BookDeltas

  // One of the vendor's levels: the price and size as written, and the size they stand for.
  datatype Level = Level(price: string, sizeText: string, size: int)

  datatype Row = Row(
    short: bool,
    action: string,
    aggressor: string,
    ts: nat,
    recv: nat,
    bids: seq<Level>,
    asks: seq<Level>)
  {
    function Levels(side: BookSide): seq<Level> {
      if side.Bid? then bids else asks
    }

    predicate Resets() {
      action == "N"
    }
  }

  // A row that is cut short, or a trade that names no aggressor, leaves no trace.
  predicate Keeps(r: Row) {
    !r.short && (r.action == "T" ==> r.aggressor == "A" || r.aggressor == "B")
  }

  function Kept(rows: seq<Row>): seq<Row> {
    if rows == [] then []
    else Kept(rows[..|rows| - 1]) + if Keeps(rows[|rows| - 1]) then [rows[|rows| - 1]] else []
  }

  // Of one row, just a whole one that, if it is a trade, names an aggressor; of two stretches of rows what is
  // kept of the first and then of the second.
  lemma {:induction false} KeptJoins(a: seq<Row>, b: seq<Row>)
    ensures Kept(a + b) == Kept(a) + Kept(b)
  {
    if b == [] {
      assert a + b == a;
    } else {
      KeptJoins(a, b[..|b| - 1]);
      assert (a + b)[..|a + b| - 1] == a + b[..|b| - 1];
    }
  }

  lemma KeptOne(r: Row)
    ensures Kept([r]) == if r.short || (r.action == "T" && r.aggressor != "A" && r.aggressor != "B") then [] else [r]
  {
    assert Kept([r][..0]) == [];
  }

  predicate Absent(l: Level) {
    l.price == "" || l.price == "0" || l.price == "0.000000000" || l.sizeText == "" || l.sizeText == "0"
  }

  // One side of a record as a table; a price named twice keeps its last size.
  function Block(levels: seq<Level>): map<string, int> {
    if levels == [] then map[]
    else
      var before, l := Block(levels[..|levels| - 1]), levels[|levels| - 1];
      if Absent(l) then before else before[l.price := l.size]
  }

  // The last level of a price that is not left out: no price, a zero price, no size or a zero size.
  ghost predicate LastOf(levels: seq<Level>, p: string, i: int) {
    && 0 <= i < |levels| && levels[i].price == p && !LeftOut(levels[i].price, levels[i].sizeText)
    && forall j :: i < j < |levels| && levels[j].price == p ==> LeftOut(levels[j].price, levels[j].sizeText)
  }

  ghost predicate LeftOut(price: string, sizeText: string) {
    price in ["", "0", "0.000000000"] || sizeText in ["", "0"]
  }

  // A side's table names the prices that some level is not left out for, each with the size of the last one.
  lemma {:induction false} BlockIsLastLevels(levels: seq<Level>, p: string)
    ensures p in Block(levels) <==> exists i :: LastOf(levels, p, i)
    ensures forall i :: LastOf(levels, p, i) ==> p in Block(levels) && Block(levels)[p] == levels[i].size
  {
    if levels != [] {
      var before, last := levels[..|levels| - 1], |levels| - 1;
      BlockIsLastLevels(before, p);
      if LastOf(levels, p, last) {
        assert forall i :: LastOf(levels, p, i) ==> i == last;
      } else {
        assert forall i :: LastOf(levels, p, i) <==> LastOf(before, p, i);
      }
    }
  }

  // What of it is a level: a size that is written otherwise and still means zero is not.
  function Firm(block: map<string, int>): (b: map<string, int>)
    ensures Solid(b) && forall k :: Get(b, k) == Get(block, k)
  {
    map p | p in block && block[p] != 0 :: block[p]
  }

  function VendorBook(r: Row, side: BookSide): map<string, int> {
    Firm(Block(r.Levels(side)))
  }

  // The book before the m-th kept row: what the previous one left.
  function BookBefore(kept: seq<Row>, m: nat, side: BookSide): (b: map<string, int>)
    requires m <= |kept|
    ensures Solid(b)
  {
    if m == 0 then map[] else VendorBook(kept[m - 1], side)
  }

  // The first kept row and every reset are written in full.
  predicate Snapshots(kept: seq<Row>, m: nat)
    requires m < |kept|
  {
    m == 0 || kept[m].Resets()
  }

  // What one kept row must write of one side, in whatever order: of the levels it or the book before it
  // holds, those that changed, or all of them in a snapshot, each with its new size.
  ghost predicate SideWritten(ds: seq<Delta>, side: BookSide, previous: map<string, int>, block: map<string, int>,
                              snapshot: bool) {
    && (forall i :: 0 <= i < |ds| && ds[i].side == side ==> ds[i].amount == Get(block, ds[i].price))
    && forall p :: p in Touched(ds, side) <==>
         (p in previous || p in block) && (snapshot || Get(previous, p) != Get(block, p))
  }

  // A row of changes carries its record's two times and whether it is part of a snapshot.
  ghost predicate Stamped(d: Delta, r: Row, snapshot: bool) {
    d.ts == r.ts && d.recv == r.recv && d.snapshot == snapshot
  }

  ghost predicate Written(ds: seq<Delta>, kept: seq<Row>, m: nat)
    requires m < |kept|
  {
    && (forall i :: 0 <= i < |ds| ==> Stamped(ds[i], kept[m], Snapshots(kept, m)))
    && forall side :: SideWritten(ds, side, BookBefore(kept, m, side), Block(kept[m].Levels(side)), Snapshots(kept, m))
  }

  // A partial book: some of another's levels, with their sizes.
  ghost predicate Part(d: map<string, int>, x: map<string, int>) {
    forall p :: p in d ==> p in x && d[p] == x[p]
  }

  // The size of a price among a side's levels; nothing where none is left.
  ghost function SizeIn(levels: seq<Level>, p: string): (size: int)
    ensures forall i :: LastOf(levels, p, i) ==> size == levels[i].size
    ensures (forall i :: !LastOf(levels, p, i)) ==> size == 0
  {
    if exists i :: LastOf(levels, p, i)
    then
      var i :| LastOf(levels, p, i);
      assert forall j :: LastOf(levels, p, j) ==> j == i;
      levels[i].size
    else 0
  }

  ghost predicate Names(levels: seq<Level>, p: string) {
    exists i :: LastOf(levels, p, i)
  }

  lemma BlockSize(levels: seq<Level>, p: string)
    ensures Get(Block(levels), p) == SizeIn(levels, p) && (p in Block(levels) <==> Names(levels, p))
  {
    BlockIsLastLevels(levels, p);
  }

  ghost predicate WritesPrice(ds: seq<Delta>, side: BookSide, p: string) {
    exists k :: 0 <= k < |ds| && ds[k].side == side && ds[k].price == p
  }

  // The levels of the kept row before the m-th, if there is one.
  function LevelsBefore(kept: seq<Row>, m: nat, side: BookSide): seq<Level>
    requires m <= |kept|
  {
    if m == 0 then [] else kept[m - 1].Levels(side)
  }

  // What a conversion writes for one kept row, said of the levels of that row and the one before it: the
  // row's own times, whether it is the first or a reset, each price's new size, and just the prices of either
  // row whose size changed, or all of them in a snapshot.
  lemma RowsAreWritten(segments: seq<seq<Delta>>, kept: seq<Row>, m: nat, side: BookSide)
    requires Encodes(segments, kept) && m < |kept|
    ensures
      var ds, now, before := segments[m], kept[m].Levels(side), LevelsBefore(kept, m, side);
      var whole := m == 0 || kept[m].action == "N";
      && (forall k :: 0 <= k < |ds| ==>
            ds[k].ts == kept[m].ts && ds[k].recv == kept[m].recv && ds[k].snapshot == whole)
      && (forall k :: 0 <= k < |ds| && ds[k].side == side ==> ds[k].amount == SizeIn(now, ds[k].price))
      && (forall p :: WritesPrice(ds, side, p) <==>
            (Names(now, p) || SizeIn(before, p) != 0) && (whole || SizeIn(before, p) != SizeIn(now, p)))
  {
    assert Written(segments[m], kept, m);
    var ds, now, before := segments[m], kept[m].Levels(side), LevelsBefore(kept, m, side);
    assert SideWritten(ds, side, BookBefore(kept, m, side), Block(now), Snapshots(kept, m));
    forall p ensures Get(Block(now), p) == SizeIn(now, p) && (p in Block(now) <==> Names(now, p)) {
      BlockSize(now, p);
    }
    forall p
      ensures Get(BookBefore(kept, m, side), p) == SizeIn(before, p)
              && (p in BookBefore(kept, m, side) <==> SizeIn(before, p) != 0)
    {
      BlockSize(before, p);
    }
    forall p ensures WritesPrice(ds, side, p) <==> p in Touched(ds, side) {
    }
  }

  // Applied to any part of the book before it, a row leaves a part of the vendor's book, and the whole of
  // it when it was applied to the whole or is a snapshot.
  lemma RowRebuilds(ds: seq<Delta>, side: BookSide, d: map<string, int>, previous: map<string, int>,
                    block: map<string, int>, snapshot: bool)
    requires SideWritten(ds, side, previous, block, snapshot) && Solid(previous) && Part(d, previous)
    ensures Part(Fold(d, ds, side), Firm(block))
    ensures d == previous || snapshot ==> Fold(d, ds, side) == Firm(block)
  {
    FoldKeepsSolid(d, ds, side);
    forall p ensures Get(Fold(d, ds, side), p) == if p in Touched(ds, side) then Get(block, p) else Get(d, p) {
      FoldAt(d, ds, side, block, p);
    }
    forall p | p in Fold(d, ds, side) ensures p in Firm(block) && Fold(d, ds, side)[p] == Firm(block)[p] {
      assert Get(Fold(d, ds, side), p) != 0;
      PartAt(d, previous, p);
      assert Get(Firm(block), p) == Get(block, p);
    }
    if d == previous || snapshot {
      forall p ensures Get(Fold(d, ds, side), p) == Get(Firm(block), p) {
        PartAt(d, previous, p);
      }
      SolidEqual(Fold(d, ds, side), Firm(block));
    }
  }

  lemma PartAt(d: map<string, int>, x: map<string, int>, p: string)
    requires Part(d, x)
    ensures Get(d, p) == 0 || Get(d, p) == Get(x, p)
    ensures p !in x ==> Get(d, p) == 0
  {
  }

  function Flatten(segments: seq<seq<Delta>>): seq<Delta> {
    if segments == [] then [] else Flatten(segments[..|segments| - 1]) + segments[|segments| - 1]
  }

  // What a conversion of the kept rows writes: one segment for each, in order.
  ghost predicate Encodes(segments: seq<seq<Delta>>, kept: seq<Row>) {
    |segments| == |kept| && forall m :: 0 <= m < |kept| ==> Written(segments[m], kept, m)
  }

  lemma WrittenExtends(ds: seq<Delta>, kept: seq<Row>, r: Row, m: nat)
    requires m < |kept| && Written(ds, kept, m)
    ensures Written(ds, kept + [r], m)
  {
    var more := kept + [r];
    assert more[m] == kept[m] && (m > 0 ==> more[m - 1] == kept[m - 1]);
    forall side ensures SideWritten(ds, side, BookBefore(more, m, side), Block(more[m].Levels(side)), Snapshots(more, m)) {
      assert BookBefore(more, m, side) == BookBefore(kept, m, side);
    }
  }

  // The kept rows of a file in which some level's written size means zero without being written "0".
  predicate HasEmptyLevel(r: Row) {
    HoldsZero(Block(r.bids)) || HoldsZero(Block(r.asks))
  }

  predicate HoldsZero(block: map<string, int>) {
    exists p :: p in block && block[p] == 0
  }

  function EmptyLevelRows(kept: seq<Row>): nat {
    if kept == [] then 0
    else EmptyLevelRows(kept[..|kept| - 1]) + if HasEmptyLevel(kept[|kept| - 1]) then 1 else 0
  }

  predicate Digits(text: string) {
    forall i :: 0 <= i < |text| ==> '0' <= text[i] <= '9'
  }

  // What a size written in digits stands for.
  function Decimal(text: string): nat
    requires Digits(text)
  {
    if text == "" then 0
    else 10 * Decimal(text[..|text| - 1]) + (text[|text| - 1] as int - '0' as int)
  }

  predicate AllZeros(text: string) {
    forall i :: 0 <= i < |text| ==> text[i] == '0'
  }

  lemma {:induction false} ZeroIsAllZeros(text: string)
    requires Digits(text)
    ensures Decimal(text) == 0 <==> AllZeros(text)
  {
    if text != "" {
      ZeroIsAllZeros(text[..|text| - 1]);
    }
  }

  ghost predicate InDigits(levels: seq<Level>) {
    forall i :: 0 <= i < |levels| ==> Digits(levels[i].sizeText) && levels[i].size == Decimal(levels[i].sizeText)
  }

  // A level written as nothing but zeros that is not left out, and that no later level of its price replaces.
  ghost predicate Disguised(levels: seq<Level>, i: int) {
    && 0 <= i < |levels| && !Absent(levels[i]) && AllZeros(levels[i].sizeText)
    && forall j :: i < j < |levels| ==> levels[j].price == levels[i].price ==> Absent(levels[j])
  }

  ghost predicate HasDisguised(levels: seq<Level>) {
    exists i :: Disguised(levels, i)
  }

  lemma LastDecides(levels: seq<Level>, p: string)
    requires levels != [] && levels[|levels| - 1].price == p && !Absent(levels[|levels| - 1])
    ensures (exists i :: Disguised(levels, i) && levels[i].price == p) <==> AllZeros(levels[|levels| - 1].sizeText)
  {
    var last := |levels| - 1;
    if AllZeros(levels[last].sizeText) {
      assert Disguised(levels, last);
    }
  }

  lemma OneMoreLevel(levels: seq<Level>, p: string, i: int)
    requires levels != [] && (levels[|levels| - 1].price != p || Absent(levels[|levels| - 1]))
    ensures
      var before := levels[..|levels| - 1];
      Disguised(levels, i) && levels[i].price == p <==> Disguised(before, i) && before[i].price == p
  {
  }

  lemma {:induction false} DisguisedIsEmpty(levels: seq<Level>, p: string)
    requires InDigits(levels)
    ensures p in Block(levels) && Block(levels)[p] == 0
            <==> exists i :: Disguised(levels, i) && levels[i].price == p
  {
    if levels != [] {
      var before, l := levels[..|levels| - 1], levels[|levels| - 1];
      DisguisedIsEmpty(before, p);
      ZeroIsAllZeros(l.sizeText);
      if l.price == p && !Absent(l) {
        LastDecides(levels, p);
      } else {
        forall i ensures Disguised(levels, i) && levels[i].price == p <==> Disguised(before, i) && before[i].price == p {
          OneMoreLevel(levels, p, i);
        }
      }
    }
  }

  lemma SideFires(levels: seq<Level>)
    requires InDigits(levels)
    ensures HoldsZero(Block(levels)) <==> HasDisguised(levels)
  {
    if p :| p in Block(levels) && Block(levels)[p] == 0 {
      DisguisedIsEmpty(levels, p);
    }
    if i :| Disguised(levels, i) {
      DisguisedIsEmpty(levels, levels[i].price);
    }
  }

  // When sizes are written in digits the check fires for a row exactly when one of its levels is disguised.
  lemma CheckFiresExactly(r: Row)
    requires InDigits(r.bids) && InDigits(r.asks)
    ensures HasEmptyLevel(r) <==> HasDisguised(r.bids) || HasDisguised(r.asks)
  {
    SideFires(r.bids);
    SideFires(r.asks);
  }

  // Such rows exist: a size written "00" is not dropped with the ones written "0".
  lemma CheckCanFire(r: Row, l: Level)
    requires r.bids == [l] && l.price == "1.0" && l.sizeText == "00" && InDigits(r.bids)
    ensures HasEmptyLevel(r) && VendorBook(r, Bid) == map[]
  {
    assert r.bids[..0] == [];
    ZeroIsAllZeros(l.sizeText);
    assert Disguised(r.bids, 0);
    DisguisedIsEmpty(r.bids, "1.0");
    assert Block(r.bids[..0]) == map[];
    assert Block(r.bids) == map["1.0" := 0];
    assert "1.0" in Block(r.Levels(Bid)) && Firm(Block(r.bids)).Keys == {};
  }

  lemma FirmIsBlock(block: map<string, int>)
    ensures Firm(block) == block <==> forall p :: p in block ==> block[p] != 0
  {
    if forall p :: p in block ==> block[p] != 0 {
      assert Firm(block).Keys == block.Keys;
    }
  }

  // ----------------------------------------------------------------------------------------- the loops

  method BlockOf(levels: seq<Level>) returns (block: map<string, int>)
    ensures block == Block(levels)
  {
    block := map[];
    for i := 0 to |levels|
      invariant block == Block(levels[..i])
    {
      var l := levels[i];
      assert levels[..i + 1][..i] == levels[..i];
      if l.price == "" || l.price == "0" || l.price == "0.000000000" || l.sizeText == "" || l.sizeText == "0" {
        continue;
      }
      block := block[l.price := l.size];
    }
    assert levels[..|levels|] == levels;
  }

  // `a` may stand before `b`.
  predicate InOrder(a: string, b: string, value: string -> real, descending: bool) {
    if descending then value(a) >= value(b) else value(a) <= value(b)
  }

  ghost predicate Ordered(s: seq<string>, value: string -> real, descending: bool) {
    forall i, j :: 0 <= i < j < |s| ==> InOrder(s[i], s[j], value, descending)
  }

  ghost predicate Distinct(s: seq<string>) {
    forall i, j :: 0 <= i < j < |s| ==> s[i] != s[j]
  }

  lemma InsertedOrdered(s: seq<string>, p: string, i: nat, value: string -> real, descending: bool)
    requires i <= |s| && Ordered(s, value, descending)
    requires forall j :: 0 <= j < i ==> InOrder(s[j], p, value, descending)
    requires i < |s| ==> InOrder(p, s[i], value, descending)
    ensures Ordered(s[..i] + [p] + s[i..], value, descending)
  {
    var t := s[..i] + [p] + s[i..];
    forall j, k | 0 <= j < k < |t| ensures InOrder(t[j], t[k], value, descending) {
      if k > i > j {
        assert t[j] == s[j] && t[k] == s[k - 1];
      } else if k == i {
        assert t[j] == s[j];
      } else if j == i {
        assert t[k] == s[k - 1];
        assert k - 1 > i ==> InOrder(s[i], s[k - 1], value, descending);
      } else if k < i {
        assert t[j] == s[j] && t[k] == s[k];
      } else {
        assert t[j] == s[j - 1] && t[k] == s[k - 1];
      }
    }
  }

  lemma InsertedElements(s: seq<string>, p: string, i: nat)
    requires i <= |s| && Distinct(s) && p !in s
    ensures Distinct(s[..i] + [p] + s[i..])
    ensures forall q :: q in s[..i] + [p] + s[i..] <==> q in s || q == p
  {
    var t := s[..i] + [p] + s[i..];
    assert s == s[..i] + s[i..];
    forall q ensures q in t <==> q in s || q == p {
      assert q in s <==> q in s[..i] || q in s[i..];
    }
    assert forall j :: 0 <= j < |t| ==> t[j] == if j < i then s[j] else if j == i then p else s[j - 1];
  }

  method Insert(s: seq<string>, p: string, value: string -> real, descending: bool) returns (t: seq<string>)
    requires Ordered(s, value, descending) && Distinct(s) && p !in s
    ensures Ordered(t, value, descending) && Distinct(t)
    ensures forall q :: q in t <==> q in s || q == p
  {
    var i := 0;
    while i < |s| && InOrder(s[i], p, value, descending)
      invariant 0 <= i <= |s|
      invariant forall j :: 0 <= j < i ==> InOrder(s[j], p, value, descending)
    {
      i := i + 1;
    }
    t := s[..i] + [p] + s[i..];
    InsertedOrdered(s, p, i, value, descending);
    InsertedElements(s, p, i);
  }

  // The prices of one row, best first.
  method SortedPrices(prices: set<string>, value: string -> real, descending: bool) returns (s: seq<string>)
    ensures Ordered(s, value, descending) && Distinct(s)
    ensures forall p :: p in s <==> p in prices
  {
    s := [];
    var todo := prices;
    while todo != {}
      invariant todo <= prices && Ordered(s, value, descending) && Distinct(s)
      invariant forall p :: p in s <==> p in prices && p !in todo
      decreases todo
    {
      var p :| p in todo;
      todo := todo - {p};
      s := Insert(s, p, value, descending);
    }
  }

  // What the loop over a row's prices has done once it has passed `done` of them.
  ghost predicate Progress(ds: seq<Delta>, after: map<string, int>, done: seq<string>, r: Row, side: BookSide,
                           block: map<string, int>, rebuilt: map<string, int>, snapshot: bool) {
    && after == Fold(rebuilt, ds, side)
    && (forall j :: 0 <= j < |ds| ==> FromRow(ds[j], r, side, block, snapshot))
    && forall p :: p in Touched(ds, side) <==> p in done && (snapshot || Get(rebuilt, p) != Get(block, p))
  }

  ghost predicate FromRow(d: Delta, r: Row, side: BookSide, block: map<string, int>, snapshot: bool) {
    d == Delta(r.ts, r.recv, snapshot, side, d.price, Get(block, d.price))
  }

  lemma Unchanged(ds: seq<Delta>, after: map<string, int>, done: seq<string>, r: Row, side: BookSide,
                  block: map<string, int>, rebuilt: map<string, int>, snapshot: bool, price: string)
    requires Progress(ds, after, done, r, side, block, rebuilt, snapshot) && price !in done
    ensures Get(after, price) == Get(rebuilt, price)
  {
    FoldAt(rebuilt, ds, side, block, price);
  }

  lemma Emits(ds: seq<Delta>, after: map<string, int>, done: seq<string>, r: Row, side: BookSide,
              block: map<string, int>, rebuilt: map<string, int>, snapshot: bool, price: string)
    requires Progress(ds, after, done, r, side, block, rebuilt, snapshot)
    requires snapshot || Get(rebuilt, price) != Get(block, price)
    ensures
      var d := Delta(r.ts, r.recv, snapshot, side, price, Get(block, price));
      Progress(ds + [d], Put(after, price, Get(block, price)), done + [price], r, side, block, rebuilt, snapshot)
  {
    var d := Delta(r.ts, r.recv, snapshot, side, price, Get(block, price));
    TouchedNext(ds, d, side);
    assert (ds + [d])[..|ds|] == ds;
  }

  lemma PassesOver(ds: seq<Delta>, after: map<string, int>, done: seq<string>, r: Row, side: BookSide,
                   block: map<string, int>, rebuilt: map<string, int>, snapshot: bool, price: string)
    requires Progress(ds, after, done, r, side, block, rebuilt, snapshot)
    requires !snapshot && Get(rebuilt, price) == Get(block, price)
    ensures Progress(ds, after, done + [price], r, side, block, rebuilt, snapshot)
  {
  }

  // The rows of one side come with the best price first.
  ghost predicate BestFirst(ds: seq<Delta>, value: string -> real, descending: bool) {
    forall i, j :: 0 <= i < j < |ds| ==> InOrder(ds[i].price, ds[j].price, value, descending)
  }

  lemma StaysBestFirst(ds: seq<Delta>, after: map<string, int>, prices: seq<string>, n: nat, r: Row, side: BookSide,
                       block: map<string, int>, rebuilt: map<string, int>, snapshot: bool, value: string -> real)
    requires n < |prices| && Ordered(prices, value, side.Bid?) && BestFirst(ds, value, side.Bid?)
    requires Progress(ds, after, prices[..n], r, side, block, rebuilt, snapshot)
    ensures forall d: Delta :: d.price == prices[n] ==> BestFirst(ds + [d], value, side.Bid?)
  {
    forall j | 0 <= j < |ds| ensures InOrder(ds[j].price, prices[n], value, side.Bid?) {
      assert FromRow(ds[j], r, side, block, snapshot);
      assert ds[j].price in Touched(ds, side);
      var k :| 0 <= k < n && prices[..n][k] == ds[j].price;
    }
  }

  // One level: a row when it changed or in a snapshot, and the book with that row applied.
  method EncodeLevel(soFar: seq<Delta>, book: map<string, int>, price: string, r: Row, side: BookSide,
                     block: map<string, int>, snapshot: bool, value: string -> real,
                     ghost rebuilt: map<string, int>, ghost prices: seq<string>, ghost n: nat)
    returns (ds: seq<Delta>, after: map<string, int>)
    requires n < |prices| && prices[n] == price && Ordered(prices, value, side.Bid?) && Distinct(prices)
    requires Progress(soFar, book, prices[..n], r, side, block, rebuilt, snapshot) && BestFirst(soFar, value, side.Bid?)
    ensures Progress(ds, after, prices[..n + 1], r, side, block, rebuilt, snapshot) && BestFirst(ds, value, side.Bid?)
  {
    assert prices[..n + 1] == prices[..n] + [price] && price !in prices[..n];
    StaysBestFirst(soFar, book, prices, n, r, side, block, rebuilt, snapshot, value);
    Unchanged(soFar, book, prices[..n], r, side, block, rebuilt, snapshot, price);
    var previous, current := Get(book, price), Get(block, price);
    ds, after := soFar, book;
    if snapshot || previous != current {
      Emits(soFar, book, prices[..n], r, side, block, rebuilt, snapshot, price);
      ds := soFar + [Delta(r.ts, r.recv, snapshot, side, price, current)];
      if current == 0 {
        after := book - {price};
      } else {
        after := book[price := current];
      }
    } else {
      PassesOver(soFar, book, prices[..n], r, side, block, rebuilt, snapshot, price);
    }
  }

  // One side of one row: what changed, or everything in a snapshot, and the book that results.
  method EncodeSide(r: Row, side: BookSide, block: map<string, int>, rebuilt: map<string, int>, snapshot: bool,
                    value: string -> real)
    returns (ds: seq<Delta>, after: map<string, int>)
    requires Solid(rebuilt)
    ensures SideWritten(ds, side, rebuilt, block, snapshot) && after == Fold(rebuilt, ds, side) == Firm(block)
    ensures forall i :: 0 <= i < |ds| ==> FromRow(ds[i], r, side, block, snapshot)
    ensures BestFirst(ds, value, side.Bid?)
  {
    var prices := SortedPrices(block.Keys + rebuilt.Keys, value, side.Bid?);
    ds, after := [], rebuilt;
    for i := 0 to |prices|
      invariant Progress(ds, after, prices[..i], r, side, block, rebuilt, snapshot)
      invariant BestFirst(ds, value, side.Bid?)
    {
      ds, after := EncodeLevel(ds, after, prices[i], r, side, block, snapshot, value, rebuilt, prices, i);
    }
    assert prices[..|prices|] == prices;
    RowRebuilds(ds, side, rebuilt, rebuilt, block, snapshot);
  }

  // Both sides of one row, the bids first.
  method EncodeRow(r: Row, bids: map<string, int>, asks: map<string, int>, snapshot: bool, value: string -> real,
                   ghost kept: seq<Row>)
    returns (ds: seq<Delta>, newBids: map<string, int>, newAsks: map<string, int>, mismatch: bool)
    requires kept != [] && kept[|kept| - 1] == r && snapshot == Snapshots(kept, |kept| - 1)
    requires bids == BookBefore(kept, |kept| - 1, Bid) && asks == BookBefore(kept, |kept| - 1, Ask)
    ensures Written(ds, kept, |kept| - 1)
    ensures newBids == BookBefore(kept, |kept|, Bid) && newAsks == BookBefore(kept, |kept|, Ask)
    ensures mismatch <==> HasEmptyLevel(r)
  {
    var vendorBids := BlockOf(r.bids);
    var b;
    b, newBids := EncodeSide(r, Bid, vendorBids, bids, snapshot, value);
    var vendorAsks := BlockOf(r.asks);
    var a;
    a, newAsks := EncodeSide(r, Ask, vendorAsks, asks, snapshot, value);
    ds := b + a;
    mismatch := newBids != vendorBids || newAsks != vendorAsks;
    EmptyLevelShows(r);
    RowWritten(b, a, kept);
  }

  lemma EmptyLevelShows(r: Row)
    ensures HasEmptyLevel(r) <==> VendorBook(r, Bid) != Block(r.bids) || VendorBook(r, Ask) != Block(r.asks)
  {
    FirmIsBlock(Block(r.bids));
    FirmIsBlock(Block(r.asks));
  }

  ghost predicate OneSided(ds: seq<Delta>, kept: seq<Row>, side: BookSide)
    requires kept != []
  {
    var m := |kept| - 1;
    && SideWritten(ds, side, BookBefore(kept, m, side), Block(kept[m].Levels(side)), Snapshots(kept, m))
    && forall i :: 0 <= i < |ds| ==>
         ds[i].side == side && Stamped(ds[i], kept[m], Snapshots(kept, m))
  }

  lemma RowWritten(b: seq<Delta>, a: seq<Delta>, kept: seq<Row>)
    requires kept != [] && OneSided(b, kept, Bid) && OneSided(a, kept, Ask)
    ensures Written(b + a, kept, |kept| - 1)
  {
    var m := |kept| - 1;
    SideInJoin(b, a, Bid, BookBefore(kept, m, Bid), Block(kept[m].bids), Snapshots(kept, m));
    SideInJoin(a, b, Ask, BookBefore(kept, m, Ask), Block(kept[m].asks), Snapshots(kept, m));
    forall side
      ensures SideWritten(b + a, side, BookBefore(kept, m, side), Block(kept[m].Levels(side)), Snapshots(kept, m))
    {
      if side.Bid? {
      } else {
        assert side == Ask;
      }
    }
  }

  lemma JoinSides(b: seq<Delta>, a: seq<Delta>, side: BookSide)
    ensures Touched(b + a, side) == Touched(b, side) + Touched(a, side)
  {
    var ds := b + a;
    forall p ensures p in Touched(ds, side) <==> p in Touched(b, side) || p in Touched(a, side) {
      if p in Touched(b, side) {
        var i :| 0 <= i < |b| && b[i].side == side && b[i].price == p;
        assert ds[i] == b[i];
      }
      if p in Touched(a, side) {
        var i :| 0 <= i < |a| && a[i].side == side && a[i].price == p;
        assert ds[|b| + i] == a[i];
      }
      if p in Touched(ds, side) {
        var i :| 0 <= i < |ds| && ds[i].side == side && ds[i].price == p;
        assert if i < |b| then b[i] == ds[i] else a[i - |b|] == ds[i];
      }
    }
  }

  // The other side's rows say nothing about this one.
  lemma SideInJoin(mine: seq<Delta>, other: seq<Delta>, side: BookSide, previous: map<string, int>,
                   block: map<string, int>, snapshot: bool)
    requires SideWritten(mine, side, previous, block, snapshot)
    requires forall i :: 0 <= i < |other| ==> other[i].side != side
    ensures SideWritten(mine + other, side, previous, block, snapshot)
    ensures SideWritten(other + mine, side, previous, block, snapshot)
  {
    JoinSides(mine, other, side);
    JoinSides(other, mine, side);
    assert Touched(other, side) == {};
    assert forall i :: 0 <= i < |mine + other| && (mine + other)[i].side == side ==> (mine + other)[i] in mine;
    assert forall i :: 0 <= i < |other + mine| && (other + mine)[i].side == side ==> (other + mine)[i] in mine;
  }

  // The conversion. Its own check of the book it rebuilt against the vendor's fires once for each kept row
  // with a level whose size means zero without being written so, and for no other.
  method Convert(rows: seq<Row>, value: string -> real)
    returns (depth: seq<Delta>, mismatches: nat, ghost segments: seq<seq<Delta>>)
    ensures depth == Flatten(segments) && Encodes(segments, Kept(rows))
    ensures mismatches == EmptyLevelRows(Kept(rows))
  {
    depth, mismatches, segments := [], 0, [];
    ghost var kept: seq<Row> := [];
    var bids, asks: map<string, int> := map[], map[];
    var firstRow := true;
    var n := 0;
    while n < |rows|
      invariant 0 <= n <= |rows| && kept == Kept(rows[..n])
      invariant Converted(kept, depth, mismatches, segments, bids, asks) && (firstRow <==> kept == [])
    {
      var r := rows[n];
      KeptNext(rows, n);
      n := n + 1;
      if r.short || (r.action == "T" && r.aggressor != "A" && r.aggressor != "B") {
        continue;
      }
      var snapshot := firstRow || r.action == "N";
      firstRow := false;
      var ds, mismatch;
      ds, bids, asks, mismatch := ConvertRow(r, bids, asks, snapshot, value, kept, depth, mismatches, segments);
      if mismatch {
        mismatches := mismatches + 1;
      }
      depth := depth + ds;
      segments := segments + [ds];
      kept := kept + [r];
    }
    assert rows[..|rows|] == rows;
  }

  // One kept row: its rows of changes, the two books after it, and the check.
  method ConvertRow(r: Row, bids: map<string, int>, asks: map<string, int>, snapshot: bool, value: string -> real,
                    ghost kept: seq<Row>, ghost depth: seq<Delta>, ghost mismatches: nat,
                    ghost segments: seq<seq<Delta>>)
    returns (ds: seq<Delta>, newBids: map<string, int>, newAsks: map<string, int>, mismatch: bool)
    requires Converted(kept, depth, mismatches, segments, bids, asks)
    requires snapshot == (kept == [] || r.Resets())
    ensures Converted(kept + [r], depth + ds, mismatches + if mismatch then 1 else 0, segments + [ds], newBids, newAsks)
  {
    BeforeExtends(kept, r, Bid);
    BeforeExtends(kept, r, Ask);
    ds, newBids, newAsks, mismatch := EncodeRow(r, bids, asks, snapshot, value, kept + [r]);
    SegmentAdded(segments, kept, r, ds);
  }

  // What has been written for the rows kept so far, and the two books that stand for the last of them.
  ghost predicate Converted(kept: seq<Row>, depth: seq<Delta>, mismatches: nat, segments: seq<seq<Delta>>,
                            bids: map<string, int>, asks: map<string, int>) {
    && depth == Flatten(segments) && Encodes(segments, kept) && mismatches == EmptyLevelRows(kept)
    && bids == BookBefore(kept, |kept|, Bid) && asks == BookBefore(kept, |kept|, Ask)
  }

  lemma KeptNext(rows: seq<Row>, n: nat)
    requires n < |rows|
    ensures Kept(rows[..n + 1]) == Kept(rows[..n]) + if Keeps(rows[n]) then [rows[n]] else []
  {
    assert rows[..n + 1][..n] == rows[..n];
  }

  lemma BeforeExtends(kept: seq<Row>, r: Row, side: BookSide)
    ensures BookBefore(kept + [r], |kept|, side) == BookBefore(kept, |kept|, side)
    ensures EmptyLevelRows(kept + [r]) == EmptyLevelRows(kept) + if HasEmptyLevel(r) then 1 else 0
  {
    assert (kept + [r])[..|kept|] == kept;
  }

  lemma SegmentAdded(segments: seq<seq<Delta>>, kept: seq<Row>, r: Row, ds: seq<Delta>)
    requires Encodes(segments, kept) && Written(ds, kept + [r], |kept|)
    ensures Encodes(segments + [ds], kept + [r]) && Flatten(segments + [ds]) == Flatten(segments) + ds
  {
    assert (segments + [ds])[..|segments|] == segments;
    forall m | 0 <= m < |kept| ensures Written(segments[m], kept + [r], m) {
      WrittenExtends(segments[m], kept, r, m);
    }
  }
}

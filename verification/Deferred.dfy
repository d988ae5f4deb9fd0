// Measurements that wait in a queue until a horizon closes: the queue a drain empties from the front
// (src/app/run_accounting.cpp:50-54, 78-82, 280-283, 296-300), and the one drain at which each entry
// leaves it.
module Deferred {
  import opened Exchange
  import opened Options

  datatype Item<T> = Item(start: nat, value: T)

  // One entry is queued, or the queue is drained at a cycle with the market of that moment.
  datatype Op<T, C> = Note(item: Item<T>) | Drain(cycle: nat, mark: C)

  // How many entries a drain takes: it stops at the first whose horizon is still open.
  function Mature<T>(queue: seq<Item<T>>, cycle: nat, horizon: nat): (n: nat)
    ensures n <= |queue|
  {
    if queue == [] || cycle < queue[0].start + horizon then 0 else 1 + Mature(queue[1..], cycle, horizon)
  }

  lemma MatureNext<T>(queue: seq<Item<T>>, k: nat, cycle: nat, horizon: nat)
    requires k < |queue| && cycle >= queue[k].start + horizon
    ensures Mature(queue[k..], cycle, horizon) == 1 + Mature(queue[k + 1..], cycle, horizon)
  {
    assert queue[k..][1..] == queue[k + 1..];
  }

  lemma {:induction false} MatureStops<T>(queue: seq<Item<T>>, cycle: nat, horizon: nat)
    ensures
      var n := Mature(queue, cycle, horizon);
      && (forall i :: 0 <= i < n ==> cycle >= queue[i].start + horizon)
      && (n < |queue| ==> cycle < queue[n].start + horizon)
  {
    if queue != [] && cycle >= queue[0].start + horizon {
      MatureStops(queue[1..], cycle, horizon);
      assert forall i :: 0 < i < |queue| ==> queue[i] == queue[1..][i - 1];
    }
  }

  // ----------------------------------------------------------------------------- what a run queues

  // The entries in the order they were queued, and where in the run each was.
  function Items<T, C>(ops: seq<Op<T, C>>): (s: seq<Item<T>>)
    ensures |s| == |Positions(ops)|
  {
    if ops == [] then []
    else
      var last := ops[|ops| - 1];
      Items(ops[..|ops| - 1]) + if last.Note? then [last.item] else []
  }

  function Positions<T, C>(ops: seq<Op<T, C>>): seq<nat> {
    if ops == [] then []
    else Positions(ops[..|ops| - 1]) + if ops[|ops| - 1].Note? then [|ops| - 1] else []
  }

  // The drain that resolved each entry, for the entries that have left the queue.
  function DoneAt<T, C>(ops: seq<Op<T, C>>, horizon: nat): (s: seq<nat>)
    ensures |s| <= |Items(ops)|
    ensures forall i :: 0 <= i < |s| ==> s[i] < |ops| && ops[s[i]].Drain?
  {
    if ops == [] then []
    else
      var before, last := ops[..|ops| - 1], ops[|ops| - 1];
      var done := DoneAt(before, horizon);
      if last.Note? then done
      else done + seq(Mature(Items(before)[|done|..], last.cycle, horizon), i => |ops| - 1)
  }

  function Pending<T, C>(ops: seq<Op<T, C>>, horizon: nat): seq<Item<T>> {
    Items(ops)[|DoneAt(ops, horizon)|..]
  }

  // ------------------------------------------------------------------------- when each entry is due

  // The first drain at or after `from` whose cycle has reached `due`.
  function FirstDue<T, C>(ops: seq<Op<T, C>>, from: nat, due: nat): (d: Option<nat>)
    ensures d.Some? ==> d.value < |ops| && ops[d.value].Drain?
  {
    if ops == [] then None
    else
      var earlier := FirstDue(ops[..|ops| - 1], from, due);
      var last := ops[|ops| - 1];
      if earlier.Some? then earlier
      else if last.Drain? && |ops| - 1 >= from && last.cycle >= due then Some(|ops| - 1)
      else None
  }

  // The largest start among the entries up to and including the i-th.
  function MaxStart<T>(items: seq<Item<T>>, i: nat): nat
    requires i < |items|
  {
    if i == 0 then items[0].start else MaxInt(MaxStart(items, i - 1), items[i].start)
  }

  // The cycles of the drains never go back.
  ghost predicate Forward<T, C>(ops: seq<Op<T, C>>) {
    forall i, j :: 0 <= i < j < |ops| && ops[i].Drain? && ops[j].Drain? ==> ops[i].cycle <= ops[j].cycle
  }

  // Every entry left the queue at the drain it was due at, or is queued because none has come.
  ghost predicate OnTime<T, C>(ops: seq<Op<T, C>>, horizon: nat, i: nat)
    requires i < |Items(ops)|
  {
    var done := DoneAt(ops, horizon);
    FirstDue(ops, Positions(ops)[i], horizon + MaxStart(Items(ops), i))
      == if i < |done| then Some(done[i]) else None
  }

  lemma {:induction false} MaxStartPrefix<T>(items: seq<Item<T>>, more: seq<Item<T>>, i: nat)
    requires i < |items|
    ensures MaxStart(items + more, i) == MaxStart(items, i)
  {
    if i > 0 {
      MaxStartPrefix(items, more, i - 1);
    }
  }

  lemma {:induction false} MaxStartBounds<T>(items: seq<Item<T>>, i: nat, due: nat)
    requires i < |items|
    ensures MaxStart(items, i) <= due <==> forall j :: 0 <= j <= i ==> items[j].start <= due
  {
    if i > 0 {
      MaxStartBounds(items, i - 1, due);
    }
  }

  // A drain already past in the run was at a cycle no later than any drain still to come.
  lemma {:induction false} DoneWereDue<T, C>(ops: seq<Op<T, C>>, horizon: nat, cycle: nat, i: nat)
    requires forall j :: 0 <= j < |ops| && ops[j].Drain? ==> ops[j].cycle <= cycle
    requires i < |DoneAt(ops, horizon)|
    ensures Items(ops)[i].start + horizon <= cycle
  {
    var before, last := ops[..|ops| - 1], ops[|ops| - 1];
    var done := DoneAt(before, horizon);
    if i < |done| {
      DoneWereDue(before, horizon, cycle, i);
    } else {
      MatureStops(Items(before)[|done|..], last.cycle, horizon);
    }
  }

  lemma {:induction false} NotDueBefore<T, C>(ops: seq<Op<T, C>>, from: nat, due: nat)
    requires from >= |ops|
    ensures FirstDue(ops, from, due) == None
  {
    if ops != [] {
      NotDueBefore(ops[..|ops| - 1], from, due);
    }
  }

  lemma {:induction false} PositionsBelow<T, C>(ops: seq<Op<T, C>>, i: nat)
    requires i < |Items(ops)|
    ensures Positions(ops)[i] < |ops|
  {
    var before := ops[..|ops| - 1];
    if i < |Items(before)| {
      PositionsBelow(before, i);
    }
  }

  // Every entry is resolved exactly once, at the first drain after it was queued whose cycle has reached
  // the horizon past the largest start queued up to it; until then it waits.
  lemma {:induction false} ResolvedOnTime<T, C>(ops: seq<Op<T, C>>, horizon: nat, i: nat)
    requires Forward(ops) && i < |Items(ops)|
    ensures OnTime(ops, horizon, i)
  {
    var before, last := ops[..|ops| - 1], ops[|ops| - 1];
    if i == |Items(before)| {
      NotDueBefore(before, |before|, horizon + MaxStart(Items(ops), i));
    } else {
      ResolvedOnTime(before, horizon, i);
      if last.Note? {
        MaxStartPrefix(Items(before), [last.item], i);
      } else {
        PositionsBelow(before, i);
        assert Items(ops) == Items(before) && Positions(ops) == Positions(before);
        if i >= |DoneAt(before, horizon)| {
          DrainTakesDue(ops, horizon, i);
        }
      }
    }
  }

  // One drain: of the entries still queued it takes those that are due, and no other.
  lemma DrainTakesDue<T, C>(ops: seq<Op<T, C>>, horizon: nat, i: nat)
    requires ops != [] && ops[|ops| - 1].Drain? && Forward(ops)
    requires |DoneAt(ops[..|ops| - 1], horizon)| <= i < |Items(ops)|
    ensures i < |DoneAt(ops, horizon)| <==> MaxStart(Items(ops), i) + horizon <= ops[|ops| - 1].cycle
  {
    var before, cycle := ops[..|ops| - 1], ops[|ops| - 1].cycle;
    var done, items := DoneAt(before, horizon), Items(before);
    var queue := items[|done|..];
    MatureStops(queue, cycle, horizon);
    var taken := Mature(queue, cycle, horizon);
    forall j | 0 <= j < |done| + taken ensures items[j].start + horizon <= cycle {
      if j < |done| {
        DoneWereDue(before, horizon, cycle, j);
      } else {
        assert items[j] == queue[j - |done|];
      }
    }
    assert |done| + taken < |items| ==> items[|done| + taken] == queue[taken];
    PrefixDue(items, |done| + taken, cycle, horizon, i);
    assert Items(ops) == items && |DoneAt(ops, horizon)| == |done| + taken;
  }

  lemma PrefixDue<T>(items: seq<Item<T>>, n: nat, cycle: nat, horizon: nat, i: nat)
    requires i < |items| && n <= |items|
    requires forall j :: 0 <= j < n ==> items[j].start + horizon <= cycle
    requires n < |items| ==> items[n].start + horizon > cycle
    ensures i < n <==> MaxStart(items, i) + horizon <= cycle
  {
    if cycle >= horizon {
      MaxStartBounds(items, i, cycle - horizon);
    }
  }

  // Entries queued in cycle order wait for their own start and nothing else.
  lemma {:induction false} OrderedStarts<T>(items: seq<Item<T>>, i: nat)
    requires i < |items| && forall j, k :: 0 <= j < k < |items| ==> items[j].start <= items[k].start
    ensures MaxStart(items, i) == items[i].start
  {
    if i > 0 {
      OrderedStarts(items, i - 1);
    }
  }

  // --------------------------------------------------------------------------- what the drains add up

  function Marked<T, C>(queue: seq<Item<T>>, mark: C): (s: seq<(T, C)>)
    ensures |s| == |queue| && forall i :: 0 <= i < |s| ==> s[i] == (queue[i].value, mark)
  {
    if queue == [] then [] else Marked(queue[..|queue| - 1], mark) + [(queue[|queue| - 1].value, mark)]
  }

  // The entries in the order the drains took them, each with the market it was measured against.
  function Resolutions<T, C>(ops: seq<Op<T, C>>, horizon: nat): seq<(T, C)> {
    if ops == [] then []
    else
      var before, last := ops[..|ops| - 1], ops[|ops| - 1];
      Resolutions(before, horizon) +
        if last.Note? then []
        else
          var queue := Pending(before, horizon);
          Marked(queue[..Mature(queue, last.cycle, horizon)], last.mark)
  }

  // One entry on its own, looked up at the drain it is due at.
  function Lookup<T, C>(ops: seq<Op<T, C>>, horizon: nat, i: nat): seq<(T, C)>
    requires i < |Items(ops)|
  {
    var due := FirstDue(ops, Positions(ops)[i], horizon + MaxStart(Items(ops), i));
    if due.Some? then [(Items(ops)[i].value, ops[due.value].mark)] else []
  }

  // The naive account of the first `n` entries.
  function Naive<T, C>(ops: seq<Op<T, C>>, horizon: nat, n: nat): seq<(T, C)>
    requires n <= |Items(ops)|
  {
    if n == 0 then [] else Naive(ops, horizon, n - 1) + Lookup(ops, horizon, n - 1)
  }

  lemma {:induction false} ResolutionCount<T, C>(ops: seq<Op<T, C>>, horizon: nat)
    ensures |Resolutions(ops, horizon)| == |DoneAt(ops, horizon)|
  {
    if ops != [] {
      ResolutionCount(ops[..|ops| - 1], horizon);
    }
  }

  lemma {:induction false} ResolutionAt<T, C>(ops: seq<Op<T, C>>, horizon: nat, i: nat)
    requires i < |DoneAt(ops, horizon)| == |Resolutions(ops, horizon)|
    ensures Resolutions(ops, horizon)[i] == (Items(ops)[i].value, ops[DoneAt(ops, horizon)[i]].mark)
  {
    var before, last := ops[..|ops| - 1], ops[|ops| - 1];
    ResolutionCount(before, horizon);
    var done := DoneAt(before, horizon);
    if i < |done| {
      ResolutionAt(before, horizon, i);
    } else {
      var queue := Pending(before, horizon);
      assert queue[..Mature(queue, last.cycle, horizon)][i - |done|] == Items(before)[i];
    }
  }

  lemma LookupIs<T, C>(ops: seq<Op<T, C>>, horizon: nat, i: nat)
    requires Forward(ops) && i < |Items(ops)|
    ensures
      var r := Resolutions(ops, horizon);
      Lookup(ops, horizon, i) == if i < |r| then [r[i]] else []
  {
    ResolvedOnTime(ops, horizon, i);
    ResolutionCount(ops, horizon);
    if i < |DoneAt(ops, horizon)| {
      ResolutionAt(ops, horizon, i);
    }
  }

  lemma {:induction false} NaiveIsPrefix<T, C>(ops: seq<Op<T, C>>, horizon: nat, n: nat, r: seq<(T, C)>)
    requires n <= |Items(ops)|
    requires forall i :: 0 <= i < n ==> Lookup(ops, horizon, i) == if i < |r| then [r[i]] else []
    ensures Naive(ops, horizon, n) == if n <= |r| then r[..n] else r
  {
    if n > 0 {
      NaiveIsPrefix(ops, horizon, n - 1, r);
      PrefixGrows(r, n, Naive(ops, horizon, n - 1), Lookup(ops, horizon, n - 1));
    }
  }

  lemma PrefixGrows<P>(r: seq<P>, n: nat, shorter: seq<P>, next: seq<P>)
    requires n > 0 && shorter == (if n - 1 <= |r| then r[..n - 1] else r)
    requires next == if n - 1 < |r| then [r[n - 1]] else []
    ensures shorter + next == if n <= |r| then r[..n] else r
  {
  }

  // What the drains measure is what looking every entry up at its own drain gives, in the same order.
  lemma DrainsAreNaive<T, C>(ops: seq<Op<T, C>>, horizon: nat)
    requires Forward(ops)
    ensures Resolutions(ops, horizon) == Naive(ops, horizon, |Items(ops)|)
  {
    var r := Resolutions(ops, horizon);
    ResolutionCount(ops, horizon);
    forall i | 0 <= i < |Items(ops)| ensures Lookup(ops, horizon, i) == if i < |r| then [r[i]] else [] {
      LookupIs(ops, horizon, i);
    }
    NaiveIsPrefix(ops, horizon, |Items(ops)|, r);
  }

  // One operation's effect on the queue and on what was resolved.
  lemma NoteStep<T, C>(ops: seq<Op<T, C>>, item: Item<T>, horizon: nat)
    ensures Pending(ops + [Note(item)], horizon) == Pending(ops, horizon) + [item]
    ensures Resolutions(ops + [Note(item)], horizon) == Resolutions(ops, horizon)
  {
    assert (ops + [Note(item)])[..|ops|] == ops;
  }

  lemma DrainStep<T, C>(ops: seq<Op<T, C>>, cycle: nat, mark: C, horizon: nat)
    ensures
      var queue, now := Pending(ops, horizon), ops + [Drain(cycle, mark)];
      var k := Mature(queue, cycle, horizon);
      && Pending(now, horizon) == queue[k..]
      && Resolutions(now, horizon) == Resolutions(ops, horizon) + Marked(queue[..k], mark)
  {
    assert (ops + [Drain(cycle, mark)])[..|ops|] == ops;
  }
}

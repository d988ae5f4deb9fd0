// The two-thread protocol of the bounded single-producer single-consumer ring, as a state machine
// over the single statements of `try_emplace` and `try_pop`.
//
// The four indices are 64-bit words and wrap. An acquire load may return any published value that is
// not older than the last one the loading thread saw (coherence, [intro.races] in section 6.9.2.1 of
// ISO/IEC 14882:2020). No step below looks at whether a slot is live before it writes or reads it:
// that the slots are always in the right condition is what is proved.
module SpscProtocol {
  import opened Options
  import opened Words

  // One slot of raw storage. `id` numbers the constructions, so that a destruction names its object.
  datatype Slot<+T> =
    | Dead
    | HalfBuilt
    | Live(id: nat, value: T)
    | MovedFrom(id: nat)

  // Where the producer stands inside `try_emplace`; `at` is its local copy of the write index.
  datatype Producer<+T> =
    | ProducerIdle
    | RoomSeen(value: T, at: Uint64)
    | Building(value: T, at: Uint64)
    | Built(value: T, at: Uint64)
    | WriteStored(at: Uint64)

  // Where the consumer stands inside `try_pop`; `at` is its local copy of the read index.
  datatype Consumer =
    | ConsumerIdle
    | ItemSeen(at: Uint64)
    | TakenOut(at: Uint64)
    | SlotFreed(at: Uint64)
    | ReadStored(at: Uint64)

  // The machine: the fields of the class, the two program counters, and the history of the run. The
  // published values of `write_` are 0, 1, .. |pushed| and those of `read_` are 0, 1, .. freed, each
  // modulo 2^64; `seenRead` and `seenWrite` are the newest of them that the other thread has loaded.
  datatype Ring<T> = Ring(
    capacity: nat,
    slots: seq<Slot<T>>,
    write: Uint64,
    writeLocal: Uint64,
    read: Uint64,
    readLocal: Uint64,
    producer: Producer<T>,
    consumer: Consumer,
    pushed: seq<T>,
    popped: seq<Option<T>>,
    freed: nat,
    seenRead: nat,
    seenWrite: nat,
    constructed: nat,
    destroyed: seq<Option<nat>>)

  datatype Action<T> =
    | ProducerLoad(value: T, readSeen: nat)
    | BeginConstruct
    | EndConstruct
    | StoreWrite
    | BumpWrite
    | ConsumerLoad(writeSeen: nat)
    | MoveOut
    | Destroy
    | StoreRead
    | BumpRead

  ghost predicate Shape<T>(r: Ring<T>) {
    && (exists k: nat :: k <= 63 && r.capacity == Pow2(k))
    && |r.slots| == r.capacity
  }

  function Wrap(n: nat): Uint64 {
    n % TWO_64
  }

  // The slot a word selects: the low bits of the index.
  function Masked(capacity: nat, index: nat): (i: nat)
    requires capacity > 0
    ensures i < capacity
  {
    And(index, capacity - 1)
  }

  ghost predicate Enabled<T>(r: Ring<T>, a: Action<T>) {
    && Shape(r)
    && match a
       case ProducerLoad(_, readSeen) => r.producer.ProducerIdle? && r.seenRead <= readSeen <= r.freed
       case BeginConstruct => r.producer.RoomSeen?
       case EndConstruct => r.producer.Building?
       case StoreWrite => r.producer.Built?
       case BumpWrite => r.producer.WriteStored?
       case ConsumerLoad(writeSeen) => r.consumer.ConsumerIdle? && r.seenWrite <= writeSeen <= |r.pushed|
       case MoveOut => r.consumer.ItemSeen?
       case Destroy => r.consumer.TakenOut?
       case StoreRead => r.consumer.SlotFreed?
       case BumpRead => r.consumer.ReadStored?
  }

  // One statement of one thread.
  ghost function Next<T>(r: Ring<T>, a: Action<T>): Ring<T>
    requires Enabled(r, a)
  {
    match a
    case ProducerLoad(value, readSeen) =>
      var s := r.(seenRead := readSeen);
      if WordDifference(r.writeLocal, Wrap(readSeen)) == r.capacity then s
      else s.(producer := RoomSeen(value, r.writeLocal))
    case BeginConstruct =>
      r.(slots := r.slots[Masked(r.capacity, r.producer.at) := HalfBuilt],
         producer := Building(r.producer.value, r.producer.at))
    case EndConstruct =>
      r.(slots := r.slots[Masked(r.capacity, r.producer.at) := Live(r.constructed, r.producer.value)],
         constructed := r.constructed + 1,
         producer := Built(r.producer.value, r.producer.at))
    case StoreWrite =>
      r.(write := Wrap(r.producer.at + 1),
         pushed := r.pushed + [r.producer.value],
         producer := WriteStored(r.producer.at))
    case BumpWrite =>
      r.(writeLocal := Wrap(r.producer.at + 1), producer := ProducerIdle)
    case ConsumerLoad(writeSeen) =>
      var s := r.(seenWrite := writeSeen);
      if r.readLocal == Wrap(writeSeen) then s
      else s.(consumer := ItemSeen(r.readLocal))
    case MoveOut =>
      var i := Masked(r.capacity, r.consumer.at);
      var s := r.(consumer := TakenOut(r.consumer.at));
      match r.slots[i] {
        case Live(id, value) => s.(slots := r.slots[i := MovedFrom(id)], popped := r.popped + [Some(value)])
        case _ => s.(popped := r.popped + [None])
      }
    case Destroy =>
      var i := Masked(r.capacity, r.consumer.at);
      Destruct(r, i).(consumer := SlotFreed(r.consumer.at))
    case StoreRead =>
      r.(read := Wrap(r.consumer.at + 1), freed := r.freed + 1, consumer := ReadStored(r.consumer.at))
    case BumpRead =>
      r.(readLocal := Wrap(r.consumer.at + 1), consumer := ConsumerIdle)
  }

  // Runs the destructor of whatever slot `i` holds; a slot that holds no object is recorded as None.
  ghost function Destruct<T>(r: Ring<T>, i: nat): Ring<T>
    requires i < |r.slots|
  {
    match r.slots[i]
    case Live(id, _) => r.(slots := r.slots[i := Dead], destroyed := r.destroyed + [Some(id)])
    case MovedFrom(id) => r.(slots := r.slots[i := Dead], destroyed := r.destroyed + [Some(id)])
    case _ => r.(destroyed := r.destroyed + [None])
  }

  ghost function Init<T>(capacity: nat): Ring<T> {
    Ring(capacity, seq(capacity, _ => Dead), 0, 0, 0, 0, ProducerIdle, ConsumerIdle, [], [], 0, 0, 0, 0, [])
  }

  // ---------------------------------------------------------------------------------- the invariant

  // What slot `j % capacity` must hold while the window of live indices is [freed, freed + capacity).
  ghost function Expected<T>(r: Ring<T>, j: nat): Slot<T> {
    if j == r.freed && r.consumer.TakenOut? then MovedFrom(j)
    else if j == r.freed && r.consumer.SlotFreed? then Dead
    else if j < |r.pushed| then Live(j, r.pushed[j])
    else if j == |r.pushed| && r.producer.Building? then HalfBuilt
    else if j == |r.pushed| && r.producer.Built? then Live(j, r.producer.value)
    else Dead
  }

  ghost function SlotOf<T>(r: Ring<T>, j: nat): Slot<T>
    requires r.capacity > 0 && |r.slots| == r.capacity
  {
    r.slots[j % r.capacity]
  }

  ghost predicate SlotsInv<T>(r: Ring<T>)
    requires r.capacity > 0 && |r.slots| == r.capacity
  {
    forall j: nat :: r.freed <= j < r.freed + r.capacity ==> SlotOf(r, j) == Expected(r, j)
  }

  // Each word is the number of publications it stands for, modulo 2^64.
  ghost predicate WordsInv<T>(r: Ring<T>) {
    && r.write == Wrap(|r.pushed|)
    && r.read == Wrap(r.freed)
    && (match r.producer
        case ProducerIdle => r.writeLocal == Wrap(|r.pushed|)
        case WriteStored(at) => |r.pushed| > 0 && at == Wrap(|r.pushed| - 1)
        case RoomSeen(_, at) => at == Wrap(|r.pushed|)
        case Building(_, at) => at == Wrap(|r.pushed|)
        case Built(_, at) => at == Wrap(|r.pushed|))
    && (match r.consumer
        case ConsumerIdle => r.readLocal == Wrap(r.freed)
        case ReadStored(at) => r.freed > 0 && at == Wrap(r.freed - 1)
        case ItemSeen(at) => at == Wrap(r.freed)
        case TakenOut(at) => at == Wrap(r.freed)
        case SlotFreed(at) => at == Wrap(r.freed))
  }

  // The producer's view lags the consumer and the consumer's lags the producer, and the distance the
  // producer measures never exceeds the capacity.
  ghost predicate OrderInv<T>(r: Ring<T>) {
    && r.seenRead <= r.freed <= r.seenWrite <= |r.pushed|
    && |r.pushed| - r.seenRead <= r.capacity
    && (r.producer.RoomSeen? || r.producer.Building? || r.producer.Built? ==>
          |r.pushed| - r.seenRead < r.capacity)
    && (r.consumer.ItemSeen? || r.consumer.TakenOut? || r.consumer.SlotFreed? ==> r.freed < r.seenWrite)
  }

  ghost function TakenCount<T>(r: Ring<T>): nat {
    r.freed + if r.consumer.TakenOut? || r.consumer.SlotFreed? then 1 else 0
  }

  ghost function DestroyedCount<T>(r: Ring<T>): nat {
    r.freed + if r.consumer.SlotFreed? then 1 else 0
  }

  ghost predicate HistoryInv<T>(r: Ring<T>) {
    && |r.popped| == TakenCount(r) <= |r.pushed|
    && (forall i :: 0 <= i < |r.popped| ==> r.popped[i] == Some(r.pushed[i]))
    && r.constructed == |r.pushed| + (if r.producer.Built? then 1 else 0)
    && |r.destroyed| == DestroyedCount(r)
    && (forall i :: 0 <= i < |r.destroyed| ==> r.destroyed[i] == Some(i))
  }

  ghost predicate Inv<T>(r: Ring<T>) {
    && Shape(r) && WordsInv(r) && OrderInv(r) && HistoryInv(r) && SlotsInv(r)
  }

  // -------------------------------------------------------------------------------- word arithmetic

  // The masked word of the n-th index is its remainder by the capacity, wrapped or not.
  lemma MaskedWrap(capacity: nat, n: nat)
    requires exists k: nat :: k <= 63 && capacity == Pow2(k)
    ensures Masked(capacity, Wrap(n)) == n % capacity
  {
    var k: nat :| k <= 63 && capacity == Pow2(k);
    AndMask(Wrap(n), k);
    WrapKeepsResidue(n, k);
  }

  lemma CapacityFits(capacity: nat)
    requires exists k: nat :: k <= 63 && capacity == Pow2(k)
    ensures 0 < capacity <= TWO_63
  {
    var k: nat :| k <= 63 && capacity == Pow2(k);
    Pow2Widths();
    if k < 63 {
      Pow2Increases(k, 63);
    }
  }

  // The difference of two words is the true distance whenever that distance is less than 2^64.
  lemma DifferenceIsDistance(n: nat, m: nat)
    requires m <= n < m + TWO_64
    ensures WordDifference(Wrap(n), Wrap(m)) == n - m
  {
    var qn, qm := n / TWO_64, m / TWO_64;
    assert n == qn * TWO_64 + Wrap(n) && m == qm * TWO_64 + Wrap(m);
    RemainderIs(Wrap(n) - Wrap(m) + TWO_64, TWO_64, qm + 1 - qn, n - m);
  }

  lemma WrapSuccessor(n: nat)
    ensures Wrap(Wrap(n) + 1) == Wrap(n + 1)
  {
  }

  // The equality tests of the code, on words, are the order tests on the unbounded counts.
  lemma TestsAreExact<T>(r: Ring<T>, a: Action<T>)
    requires Inv(r) && Enabled(r, a)
    ensures a.ProducerLoad? ==>
              (WordDifference(r.writeLocal, Wrap(a.readSeen)) == r.capacity
               <==> |r.pushed| - a.readSeen >= r.capacity)
    ensures a.ConsumerLoad? ==> (r.readLocal == Wrap(a.writeSeen) <==> a.writeSeen <= r.freed)
  {
    CapacityFits(r.capacity);
    if a.ProducerLoad? {
      DifferenceIsDistance(|r.pushed|, a.readSeen);
    }
    if a.ConsumerLoad? {
      DifferenceIsDistance(a.writeSeen, r.freed);
    }
  }

  // ------------------------------------------------------------------------------ every step keeps it

  lemma InvInit<T>(k: nat)
    requires k <= 63
    ensures Inv(Init<T>(Pow2(k)))
  {
  }

  // Overwriting the slot of index `j` leaves the slot of every other index of the window alone.
  lemma OtherSlots<T>(r: Ring<T>, s: Ring<T>, j: nat, v: Slot<T>)
    requires r.capacity > 0 && |r.slots| == r.capacity
    requires s.capacity == r.capacity && s.slots == r.slots[j % r.capacity := v]
    ensures SlotOf(s, j) == v
    ensures forall i: nat :: i != j && j - r.capacity < i < j + r.capacity ==> SlotOf(s, i) == SlotOf(r, i)
  {
    forall i: nat | i != j && j - r.capacity < i < j + r.capacity
      ensures SlotOf(s, i) == SlotOf(r, i)
    {
      if i < j {
        ResidueInjective(i, j, r.capacity);
      } else {
        ResidueInjective(j, i, r.capacity);
      }
    }
  }

  // The producer's steps that write its slot.
  lemma InvConstruct<T>(r: Ring<T>, a: Action<T>)
    requires Inv(r) && Enabled(r, a) && (a.BeginConstruct? || a.EndConstruct?)
    ensures Inv(Next(r, a))
  {
    var s, p := Next(r, a), |r.pushed|;
    CapacityFits(r.capacity);
    MaskedWrap(r.capacity, p);
    OtherSlots(r, s, p, if a.BeginConstruct? then HalfBuilt else Live(p, r.producer.value));
    SlotsStillExpected(r, s);
  }

  // The producer's steps that only load or store words.
  lemma InvProducerLoad<T>(r: Ring<T>, a: Action<T>)
    requires Inv(r) && Enabled(r, a) && a.ProducerLoad?
    ensures Inv(Next(r, a))
  {
    CapacityFits(r.capacity);
    TestsAreExact(r, a);
    SlotsStillExpected(r, Next(r, a));
  }

  lemma InvProducerStore<T>(r: Ring<T>, a: Action<T>)
    requires Inv(r) && Enabled(r, a) && (a.StoreWrite? || a.BumpWrite?)
    ensures Inv(Next(r, a))
  {
    CapacityFits(r.capacity);
    WrapSuccessor(if a.StoreWrite? then |r.pushed| else |r.pushed| - 1);
    SlotsStillExpected(r, Next(r, a));
  }

  lemma SlotsStillExpected<T>(r: Ring<T>, s: Ring<T>)
    requires r.capacity > 0 && |r.slots| == r.capacity && s.capacity == r.capacity && |s.slots| == s.capacity
    requires SlotsInv(r) && s.freed == r.freed
    requires forall j: nat :: s.freed <= j < s.freed + s.capacity && SlotOf(r, j) == Expected(r, j) ==>
               SlotOf(s, j) == Expected(s, j)
    ensures SlotsInv(s)
  {
    forall j: nat | s.freed <= j < s.freed + s.capacity ensures SlotOf(s, j) == Expected(s, j) {
      assert SlotOf(r, j) == Expected(r, j);
    }
  }

  lemma SlotsAfterWrite<T>(r: Ring<T>, s: Ring<T>, v: Slot<T>)
    requires Inv(r) && s.capacity == r.capacity
    requires s.slots == r.slots[r.freed % r.capacity := v]
    requires s.freed == r.freed && s.pushed == r.pushed && s.producer == r.producer
    requires Expected(s, r.freed) == v
    ensures SlotsInv(s)
  {
    OtherSlots(r, s, r.freed, v);
    forall j: nat | s.freed <= j < s.freed + s.capacity ensures SlotOf(s, j) == Expected(s, j) {
      assert SlotOf(r, j) == Expected(r, j);
    }
  }

  lemma InvTake<T>(r: Ring<T>, a: Action<T>)
    requires Inv(r) && Enabled(r, a) && (a.MoveOut? || a.Destroy?)
    ensures Inv(Next(r, a))
  {
    CapacityFits(r.capacity);
    MaskedWrap(r.capacity, r.freed);
    assert SlotOf(r, r.freed) == Expected(r, r.freed);
    if a.MoveOut? {
      TakeHistory(r);
      SlotsAfterWrite(r, Next(r, a), MovedFrom(r.freed));
    } else {
      SlotsAfterWrite(r, Next(r, a), Dead);
    }
  }

  // Moving out takes the oldest value.
  lemma TakeHistory<T>(r: Ring<T>)
    requires Inv(r) && Enabled(r, MoveOut)
    ensures HistoryInv(Next(r, MoveOut))
  {
    CapacityFits(r.capacity);
    MaskedWrap(r.capacity, r.freed);
    assert SlotOf(r, r.freed) == Expected(r, r.freed) == Live(r.freed, r.pushed[r.freed]);
  }

  lemma InvStoreRead<T>(r: Ring<T>)
    requires Inv(r) && Enabled(r, StoreRead)
    ensures Inv(Next(r, StoreRead))
  {
    var s := Next(r, StoreRead);
    CapacityFits(r.capacity);
    WrapSuccessor(r.freed);
    ResidueShift(r.freed, r.capacity);
    assert SlotOf(s, r.freed + r.capacity) == SlotOf(r, r.freed) == Expected(r, r.freed);
    forall j: nat | s.freed <= j < s.freed + s.capacity ensures SlotOf(s, j) == Expected(s, j) {
      if j < r.freed + r.capacity {
        assert SlotOf(r, j) == Expected(r, j);
      }
    }
  }

  // A step of the consumer that touches no slot and does not move its index.
  lemma SlotsKept<T>(r: Ring<T>, s: Ring<T>)
    requires r.capacity > 0 && |r.slots| == r.capacity && s.capacity == r.capacity && s.slots == r.slots
    requires SlotsInv(r) && s.freed == r.freed && s.pushed == r.pushed && s.producer == r.producer
    requires !r.consumer.TakenOut? && !r.consumer.SlotFreed? && !s.consumer.TakenOut? && !s.consumer.SlotFreed?
    ensures SlotsInv(s)
  {
    forall j: nat | s.freed <= j < s.freed + s.capacity ensures SlotOf(s, j) == Expected(s, j) {
      assert SlotOf(r, j) == Expected(r, j);
    }
  }

  lemma InvConsumerLoad<T>(r: Ring<T>, writeSeen: nat)
    requires Inv(r) && Enabled(r, ConsumerLoad(writeSeen))
    ensures Inv(Next(r, ConsumerLoad(writeSeen)))
  {
    TestsAreExact(r, ConsumerLoad(writeSeen));
    CapacityFits(r.capacity);
    SlotsKept(r, Next(r, ConsumerLoad(writeSeen)));
  }

  lemma InvBumpRead<T>(r: Ring<T>)
    requires Inv(r) && Enabled(r, BumpRead)
    ensures Inv(Next(r, BumpRead))
  {
    WrapSuccessor(r.freed - 1);
    CapacityFits(r.capacity);
    SlotsKept(r, Next(r, BumpRead));
  }

  lemma InvConsumer<T>(r: Ring<T>, a: Action<T>)
    requires Inv(r) && Enabled(r, a)
    requires a.ConsumerLoad? || a.MoveOut? || a.Destroy? || a.StoreRead? || a.BumpRead?
    ensures Inv(Next(r, a))
  {
    if a.MoveOut? || a.Destroy? {
      InvTake(r, a);
    } else if a.StoreRead? {
      InvStoreRead(r);
    } else if a.ConsumerLoad? {
      InvConsumerLoad(r, a.writeSeen);
    } else {
      InvBumpRead(r);
    }
  }

  lemma InvNext<T>(r: Ring<T>, a: Action<T>)
    requires Inv(r) && Enabled(r, a)
    ensures Inv(Next(r, a))
  {
    if a.BeginConstruct? || a.EndConstruct? {
      InvConstruct(r, a);
    } else if a.ProducerLoad? {
      InvProducerLoad(r, a);
    } else if a.StoreWrite? || a.BumpWrite? {
      InvProducerStore(r, a);
    } else {
      InvConsumer(r, a);
    }
  }

  // ----------------------------------------------------------------------------------- whole runs

  // An interleaving: every action is enabled where it is taken.
  ghost predicate IsRun<T>(r: Ring<T>, actions: seq<Action<T>>)
    decreases |actions|
  {
    actions == [] || (Enabled(r, actions[0]) && IsRun(Next(r, actions[0]), actions[1..]))
  }

  ghost function Run<T>(r: Ring<T>, actions: seq<Action<T>>): Ring<T>
    requires IsRun(r, actions)
    decreases |actions|
  {
    if actions == [] then r else Run(Next(r, actions[0]), actions[1..])
  }

  lemma {:induction false} InvRun<T>(r: Ring<T>, actions: seq<Action<T>>)
    requires Inv(r) && IsRun(r, actions)
    ensures Inv(Run(r, actions))
    decreases |actions|
  {
    if actions != [] {
      InvNext(r, actions[0]);
      InvRun(Next(r, actions[0]), actions[1..]);
    }
  }

  // The values waiting in the ring, read out of the slots in index order.
  ghost function Contents<T>(r: Ring<T>): seq<Slot<T>>
    requires r.capacity > 0 && |r.slots| == r.capacity && |r.popped| <= |r.pushed|
  {
    seq(|r.pushed| - |r.popped|, i requires 0 <= i => SlotOf(r, |r.popped| + i))
  }

  lemma ContentsAreTheUnpopped<T>(r: Ring<T>)
    requires Inv(r)
    ensures |r.popped| <= |r.pushed| <= |r.popped| + r.capacity
    ensures forall i :: 0 <= i < |Contents(r)| ==>
              Contents(r)[i] == Live(|r.popped| + i, r.pushed[|r.popped| + i])
  {
    forall i | 0 <= i < |Contents(r)|
      ensures Contents(r)[i] == Live(|r.popped| + i, r.pushed[|r.popped| + i])
    {
      assert SlotOf(r, |r.popped| + i) == Expected(r, |r.popped| + i);
    }
  }

  // First in, first out, in every interleaving: what was popped followed by what the slots hold is
  // what was pushed, in order, and never more than `capacity` values wait.
  lemma FirstInFirstOut<T>(k: nat, actions: seq<Action<T>>)
    requires k <= 63 && IsRun(Init<T>(Pow2(k)), actions)
    ensures
      var r := Run(Init<T>(Pow2(k)), actions);
      && r.capacity > 0 && |r.slots| == r.capacity && |r.popped| <= |r.pushed| <= |r.popped| + r.capacity
      && (forall i :: 0 <= i < |r.popped| ==> r.popped[i] == Some(r.pushed[i]))
      && (forall i :: 0 <= i < |Contents(r)| ==>
            Contents(r)[i] == Live(|r.popped| + i, r.pushed[|r.popped| + i]))
      && |r.pushed| - r.seenRead <= r.capacity
  {
    InvInit<T>(k);
    InvRun(Init<T>(Pow2(k)), actions);
    ContentsAreTheUnpopped(Run(Init<T>(Pow2(k)), actions));
  }

  // What a step assumes of the slot it touches, and that the two threads never touch one slot at once. The
  // producer builds only where an acquired read index says the previous object has gone, and the consumer
  // moves out only what an acquired write index says was built: each access follows the other thread's
  // release of that slot.
  ghost predicate SafeStep<T>(r: Ring<T>, a: Action<T>)
    requires Enabled(r, a)
  {
    && (a.BeginConstruct? ==> r.slots[Masked(r.capacity, r.producer.at)] == Dead)
    && (a.EndConstruct? ==> r.slots[Masked(r.capacity, r.producer.at)] == HalfBuilt)
    && (a.MoveOut? ==> r.slots[Masked(r.capacity, r.consumer.at)].Live?)
    && (a.Destroy? ==> r.slots[Masked(r.capacity, r.consumer.at)].MovedFrom?)
    && (a.BeginConstruct? ==> |r.pushed| - r.seenRead < r.capacity)
    && (a.MoveOut? ==> r.freed < r.seenWrite)
    && ((r.producer.RoomSeen? || r.producer.Building?) && (r.consumer.ItemSeen? || r.consumer.TakenOut?) ==>
          Masked(r.capacity, r.producer.at) != Masked(r.capacity, r.consumer.at))
  }

  lemma EveryStepSafe<T>(k: nat, actions: seq<Action<T>>, a: Action<T>)
    requires k <= 63 && IsRun(Init<T>(Pow2(k)), actions)
    requires Enabled(Run(Init<T>(Pow2(k)), actions), a)
    ensures SafeStep(Run(Init<T>(Pow2(k)), actions), a)
  {
    InvInit<T>(k);
    InvRun(Init<T>(Pow2(k)), actions);
    var r := Run(Init<T>(Pow2(k)), actions);
    MaskedWrap(r.capacity, |r.pushed|);
    MaskedWrap(r.capacity, r.freed);
    assert r.producer.RoomSeen? || r.producer.Building? ==> SlotOf(r, |r.pushed|) == Expected(r, |r.pushed|);
    assert SlotOf(r, r.freed) == Expected(r, r.freed);
    if r.freed < |r.pushed| < r.freed + r.capacity {
      ResidueInjective(r.freed, |r.pushed|, r.capacity);
    }
  }

  // ----------------------------------------------------------------------------------- destruction

  // The destructor's loop: `for (index = read_local_; index < end; ++index)` on words.
  ghost function Drain<T>(r: Ring<T>, index: nat, end: nat): Ring<T>
    requires r.capacity > 0 && |r.slots| == r.capacity
    decreases end - index
  {
    if index < end then Drain(Destruct(r, Masked(r.capacity, index)), index + 1, end) else r
  }

  ghost function DestroyRing<T>(r: Ring<T>): Ring<T>
    requires r.capacity > 0 && |r.slots| == r.capacity
  {
    Drain(r, r.readLocal, r.write)
  }

  // No object is left: every construction was ended once, in construction order.
  ghost predicate AllEnded<T>(r: Ring<T>) {
    && (forall i :: 0 <= i < |r.slots| ==> r.slots[i] == Dead)
    && |r.destroyed| == r.constructed
    && (forall i :: 0 <= i < |r.destroyed| ==> r.destroyed[i] == Some(i))
  }

  // The state of the drain after it has destroyed the objects below index `n`.
  ghost predicate DrainInv<T>(r: Ring<T>, s: Ring<T>, n: nat) {
    && s.capacity == r.capacity > 0 && |s.slots| == |r.slots| == r.capacity
    && s.constructed == r.constructed == |r.pushed|
    && r.freed <= n <= |r.pushed| <= r.freed + r.capacity
    && |s.destroyed| == n && (forall i :: 0 <= i < n ==> s.destroyed[i] == Some(i))
    && (forall j: nat :: r.freed <= j < r.freed + r.capacity ==>
          SlotOf(s, j) == if n <= j < |r.pushed| then Live(j, r.pushed[j]) else Dead)
  }

  lemma DrainOne<T>(r: Ring<T>, s: Ring<T>, n: nat)
    requires Shape(r) && DrainInv(r, s, n) && n < |r.pushed|
    ensures DrainInv(r, Destruct(s, Masked(s.capacity, Wrap(n))), n + 1)
  {
    MaskedWrap(r.capacity, n);
    assert SlotOf(s, n) == Live(n, r.pushed[n]);
    var t := Destruct(s, Masked(s.capacity, Wrap(n)));
    OtherSlots(s, t, n, Dead);
    forall j: nat | r.freed <= j < r.freed + r.capacity
      ensures SlotOf(t, j) == if n + 1 <= j < |r.pushed| then Live(j, r.pushed[j]) else Dead
    {
      assert j != n ==> SlotOf(t, j) == SlotOf(s, j);
    }
  }

  lemma {:induction false} DrainStep<T>(r: Ring<T>, s: Ring<T>, n: nat, index: nat, end: nat)
    requires Shape(r) && DrainInv(r, s, n)
    requires index == Wrap(n) && end == Wrap(|r.pushed|) && end - index == |r.pushed| - n
    ensures DrainInv(r, Drain(s, index, end), |r.pushed|)
    decreases end - index
  {
    if index < end {
      DrainOne(r, s, n);
      WrapSuccessor(n);
      DrainStep(r, Destruct(s, Masked(s.capacity, index)), n + 1, index + 1, end);
    }
  }

  ghost predicate Quiet<T>(r: Ring<T>) {
    r.producer.ProducerIdle? && r.consumer.ConsumerIdle?
  }

  lemma DeadEverywhere<T>(r: Ring<T>, s: Ring<T>)
    requires DrainInv(r, s, |r.pushed|)
    ensures AllEnded(s)
  {
    forall i | 0 <= i < |s.slots| ensures s.slots[i] == Dead {
      var c := r.capacity;
      var f := r.freed % c;
      var j := if i >= f then r.freed - f + i else r.freed - f + c + i;
      RemainderIs(j, c, r.freed / c + (if i >= f then 0 else 1), i);
      assert SlotOf(s, j) == Dead;
    }
  }

  lemma DestructorOf<T>(r: Ring<T>)
    requires Inv(r) && Quiet(r)
    ensures AllEnded(DestroyRing(r)) <==> r.readLocal <= r.write
    ensures r.readLocal > r.write ==> DestroyRing(r) == r && |r.destroyed| < r.constructed
  {
    CapacityFits(r.capacity);
    if r.readLocal <= r.write {
      DifferenceIsDistance(|r.pushed|, r.freed);
      assert r.write - r.readLocal == |r.pushed| - r.freed;
      DrainStep(r, r, r.freed, r.readLocal, r.write);
      DeadEverywhere(r, DestroyRing(r));
    } else {
      assert r.freed != |r.pushed|;
    }
  }

  // After any run that leaves both threads idle, the destructor ends every object exactly once if and
  // only if the consumer's word has not overtaken the producer's: the loop compares wrapped words, so
  // a ring destroyed across the 2^64 boundary while it holds values leaks them.
  lemma DestructorExact<T>(k: nat, actions: seq<Action<T>>)
    requires k <= 63 && IsRun(Init<T>(Pow2(k)), actions)
    requires Quiet(Run(Init<T>(Pow2(k)), actions))
    ensures
      var r := Run(Init<T>(Pow2(k)), actions);
      && r.capacity > 0 && |r.slots| == r.capacity
      && (AllEnded(DestroyRing(r)) <==> r.readLocal <= r.write)
      && (r.readLocal > r.write ==> DestroyRing(r) == r && |r.destroyed| < r.constructed)
  {
    InvInit<T>(k);
    InvRun(Init<T>(Pow2(k)), actions);
    DestructorOf(Run(Init<T>(Pow2(k)), actions));
  }

  // Below 2^64 pushes the words have not wrapped, and the destructor is always right.
  lemma DestructorBeforeWrap<T>(k: nat, actions: seq<Action<T>>)
    requires k <= 63 && IsRun(Init<T>(Pow2(k)), actions)
    requires Quiet(Run(Init<T>(Pow2(k)), actions))
    requires |Run(Init<T>(Pow2(k)), actions).pushed| < TWO_64
    ensures
      var r := Run(Init<T>(Pow2(k)), actions);
      r.capacity > 0 && |r.slots| == r.capacity && AllEnded(DestroyRing(r))
  {
    InvInit<T>(k);
    InvRun(Init<T>(Pow2(k)), actions);
    var r := Run(Init<T>(Pow2(k)), actions);
    SmallIsUnwrapped(|r.pushed|);
    SmallIsUnwrapped(r.freed);
    DestructorOf(r);
  }

  lemma SmallIsUnwrapped(n: nat)
    requires n < TWO_64
    ensures Wrap(n) == n
  {
  }

  // ------------------------------------------------------------------------- uninterrupted calls

  // The steps of one `try_emplace` and one `try_pop` that see the other side's newest index.
  ghost function PushActions<T>(r: Ring<T>, value: T): seq<Action<T>> {
    [ProducerLoad(value, r.freed), BeginConstruct, EndConstruct, StoreWrite, BumpWrite]
  }

  ghost function PopActions<T>(r: Ring<T>): seq<Action<T>> {
    [ConsumerLoad(|r.pushed|), MoveOut, Destroy, StoreRead, BumpRead]
  }

  lemma {:induction false} RunConcat<T>(r: Ring<T>, a: seq<Action<T>>, b: seq<Action<T>>)
    requires IsRun(r, a) && IsRun(Run(r, a), b)
    ensures IsRun(r, a + b) && Run(r, a + b) == Run(Run(r, a), b)
    decreases |a|
  {
    if a == [] {
      assert a + b == b;
    } else {
      assert (a + b)[0] == a[0] && (a + b)[1..] == a[1..] + b;
      RunConcat(Next(r, a[0]), a[1..], b);
    }
  }

  lemma RunOne<T>(r: Ring<T>, a: Action<T>)
    requires Enabled(r, a)
    ensures IsRun(r, [a]) && Run(r, [a]) == Next(r, a)
  {
    assert [a][1..] == [];
    assert IsRun(Next(r, a), []);
  }

  lemma {:induction false} RunUnfold<T>(r: Ring<T>, a: seq<Action<T>>)
    requires |a| >= 1 && Enabled(r, a[0]) && IsRun(Next(r, a[0]), a[1..])
    ensures IsRun(r, a) && Run(r, a) == Run(Next(r, a[0]), a[1..])
  {
  }

  lemma RunFive<T>(r: Ring<T>, a: seq<Action<T>>, r1: Ring<T>, r2: Ring<T>, r3: Ring<T>, r4: Ring<T>)
    requires |a| == 5
    requires Enabled(r, a[0]) && r1 == Next(r, a[0])
    requires Enabled(r1, a[1]) && r2 == Next(r1, a[1])
    requires Enabled(r2, a[2]) && r3 == Next(r2, a[2])
    requires Enabled(r3, a[3]) && r4 == Next(r3, a[3])
    requires Enabled(r4, a[4])
    ensures IsRun(r, a) && Run(r, a) == Next(r4, a[4])
  {
    RunOne(r4, a[4]);
    assert a[4..] == [a[4]] && a[3..][1..] == a[4..] && a[2..][1..] == a[3..] && a[1..][1..] == a[2..];
    RunUnfold(r3, a[3..]);
    RunUnfold(r2, a[2..]);
    RunUnfold(r1, a[1..]);
    RunUnfold(r, a);
  }

  lemma PushStates<T>(r: Ring<T>, value: T, at: nat, i: nat)
    returns (r1: Ring<T>, r2: Ring<T>, r3: Ring<T>, r4: Ring<T>)
    requires Shape(r) && Quiet(r) && r.capacity > 0 && r.seenRead <= r.freed
    requires at == r.writeLocal && i == Masked(r.capacity, at)
    requires WordDifference(r.writeLocal, Wrap(r.freed)) != r.capacity
    ensures Enabled(r, ProducerLoad(value, r.freed)) && r1 == Next(r, ProducerLoad(value, r.freed))
    ensures Enabled(r1, BeginConstruct) && r2 == Next(r1, BeginConstruct)
    ensures Enabled(r2, EndConstruct) && r3 == Next(r2, EndConstruct)
    ensures Enabled(r3, StoreWrite) && r4 == Next(r3, StoreWrite) && Enabled(r4, BumpWrite)
    ensures r4 == r.(seenRead := r.freed, slots := r.slots[i := Live(r.constructed, value)],
                     constructed := r.constructed + 1, write := Wrap(at + 1), pushed := r.pushed + [value],
                     producer := WriteStored(at))
  {
    r1 := r.(seenRead := r.freed, producer := RoomSeen(value, at));
    r2 := r1.(slots := r.slots[i := HalfBuilt], producer := Building(value, at));
    r3 := r2.(slots := r2.slots[i := Live(r.constructed, value)], constructed := r.constructed + 1,
              producer := Built(value, at));
    r4 := r3.(write := Wrap(at + 1), pushed := r.pushed + [value], producer := WriteStored(at));
    assert r3.slots == r.slots[i := Live(r.constructed, value)];
  }

  // A push with room: the queue grows by the value at its end.
  lemma PushRun<T>(r: Ring<T>, value: T)
    requires Shape(r) && Quiet(r) && r.capacity > 0 && r.seenRead <= r.freed
    requires WordDifference(r.writeLocal, Wrap(r.freed)) != r.capacity
    ensures IsRun(r, PushActions(r, value))
    ensures
      var s := Run(r, PushActions(r, value));
      && Quiet(s) && s.capacity == r.capacity
      && s.pushed == r.pushed + [value] && s.popped == r.popped && s.freed == r.freed
      && s.slots == r.slots[Masked(r.capacity, r.writeLocal) := Live(r.constructed, value)]
      && s.write == s.writeLocal == Wrap(r.writeLocal + 1) && s.read == r.read && s.readLocal == r.readLocal
  {
    var r1, r2, r3, r4 := PushStates(r, value, r.writeLocal, Masked(r.capacity, r.writeLocal));
    RunFive(r, PushActions(r, value), r1, r2, r3, r4);
  }

  lemma PushInv<T>(r: Ring<T>, value: T)
    requires Inv(r) && Quiet(r) && |r.pushed| < r.freed + r.capacity
    ensures r.capacity > 0 && WordDifference(r.writeLocal, Wrap(r.freed)) != r.capacity
    ensures IsRun(r, PushActions(r, value)) && Inv(Run(r, PushActions(r, value)))
  {
    CapacityFits(r.capacity);
    TestsAreExact(r, ProducerLoad(value, r.freed));
    PushRun(r, value);
    InvRun(r, PushActions(r, value));
  }

  lemma OldestWaits<T>(r: Ring<T>)
    requires Inv(r) && Quiet(r) && r.freed < |r.pushed|
    ensures r.slots[Masked(r.capacity, r.readLocal)] == Live(r.freed, r.pushed[r.freed])
  {
    MaskedWrap(r.capacity, r.freed);
    assert SlotOf(r, r.freed) == Expected(r, r.freed);
  }

  lemma PopStates<T>(r: Ring<T>, at: nat, i: nat) returns (r1: Ring<T>, r2: Ring<T>, r3: Ring<T>, r4: Ring<T>)
    requires Shape(r) && Quiet(r) && r.capacity > 0 && r.seenWrite <= |r.pushed|
    requires at == r.readLocal != Wrap(|r.pushed|)
    requires i == Masked(r.capacity, at) && r.slots[i].Live?
    ensures Enabled(r, ConsumerLoad(|r.pushed|)) && r1 == Next(r, ConsumerLoad(|r.pushed|))
    ensures Enabled(r1, MoveOut) && r2 == Next(r1, MoveOut)
    ensures Enabled(r2, Destroy) && r3 == Next(r2, Destroy)
    ensures Enabled(r3, StoreRead) && r4 == Next(r3, StoreRead) && Enabled(r4, BumpRead)
    ensures r4 == r.(seenWrite := |r.pushed|, slots := r.slots[i := Dead],
                     popped := r.popped + [Some(r.slots[i].value)],
                     destroyed := r.destroyed + [Some(r.slots[i].id)],
                     read := Wrap(at + 1), freed := r.freed + 1, consumer := ReadStored(at))
  {
    r1 := r.(seenWrite := |r.pushed|, consumer := ItemSeen(at));
    r2 := r1.(slots := r.slots[i := MovedFrom(r.slots[i].id)],
              popped := r.popped + [Some(r.slots[i].value)], consumer := TakenOut(at));
    r3 := r2.(slots := r2.slots[i := Dead], destroyed := r.destroyed + [Some(r.slots[i].id)],
              consumer := SlotFreed(at));
    r4 := r3.(read := Wrap(at + 1), freed := r.freed + 1, consumer := ReadStored(at));
    assert r3.slots == r.slots[i := Dead];
  }

  lemma PopLastStep<T>(r: Ring<T>) returns (r4: Ring<T>)
    requires Shape(r) && Quiet(r) && r.capacity > 0 && r.seenWrite <= |r.pushed|
    requires r.readLocal != Wrap(|r.pushed|) && r.slots[Masked(r.capacity, r.readLocal)].Live?
    ensures Enabled(r4, BumpRead) && IsRun(r, PopActions(r)) && Run(r, PopActions(r)) == Next(r4, BumpRead)
    ensures
      var i := Masked(r.capacity, r.readLocal);
      r4 == r.(seenWrite := |r.pushed|, slots := r.slots[i := Dead],
               popped := r.popped + [Some(r.slots[i].value)],
               destroyed := r.destroyed + [Some(r.slots[i].id)],
               read := Wrap(r.readLocal + 1), freed := r.freed + 1, consumer := ReadStored(r.readLocal))
  {
    var r1, r2, r3, last := PopStates(r, r.readLocal, Masked(r.capacity, r.readLocal));
    r4 := last;
    RunFive(r, PopActions(r), r1, r2, r3, r4);
  }

  // A pop with a value waiting: the oldest value leaves. The slots need not be described in full.
  lemma PopRun<T>(r: Ring<T>)
    requires Shape(r) && Quiet(r) && r.capacity > 0 && r.seenWrite <= |r.pushed|
    requires r.readLocal != Wrap(|r.pushed|)
    requires r.slots[Masked(r.capacity, r.readLocal)].Live?
    ensures IsRun(r, PopActions(r))
    ensures
      var s := Run(r, PopActions(r));
      && Quiet(s) && s.capacity == r.capacity
      && s.pushed == r.pushed && s.popped == r.popped + [Some(r.slots[Masked(r.capacity, r.readLocal)].value)]
      && s.freed == r.freed + 1
      && s.slots == r.slots[Masked(r.capacity, r.readLocal) := Dead]
      && s.write == r.write && s.writeLocal == r.writeLocal && s.read == s.readLocal == Wrap(r.readLocal + 1)
  {
    var r4 := PopLastStep(r);
  }

  lemma PopInv<T>(r: Ring<T>)
    requires Inv(r) && Quiet(r) && r.freed < |r.pushed|
    ensures r.readLocal != Wrap(|r.pushed|)
    ensures r.slots[Masked(r.capacity, r.readLocal)] == Live(r.freed, r.pushed[r.freed])
    ensures IsRun(r, PopActions(r)) && Inv(Run(r, PopActions(r)))
  {
    TestsAreExact(r, ConsumerLoad(|r.pushed|));
    OldestWaits(r);
    PopRun(r);
    InvRun(r, PopActions(r));
  }

  // Pushing and popping one value `n` times.
  lemma {:induction false} RoundTrips<T>(value: T, n: nat) returns (actions: seq<Action<T>>)
    ensures IsRun(Init<T>(1), actions)
    ensures
      var r := Run(Init<T>(1), actions);
      Inv(r) && Quiet(r) && r.capacity == 1 && |r.pushed| == r.freed == n
  {
    if n == 0 {
      InvInit<T>(0);
      actions := [];
    } else {
      var before := RoundTrips(value, n - 1);
      var r := Run(Init<T>(1), before);
      PushInv(r, value);
      PushRun(r, value);
      RunConcat(Init<T>(1), before, PushActions(r, value));
      var s := Run(r, PushActions(r, value));
      PopInv(s);
      PopRun(s);
      RunConcat(Init<T>(1), before + PushActions(r, value), PopActions(s));
      actions := before + PushActions(r, value) + PopActions(s);
    }
  }

  // The leak is reachable: with one slot, the push that makes the write word wrap to zero leaves a
  // live object that the destructor's loop never visits.
  lemma DestructorLeaks<T>(value: T) returns (actions: seq<Action<T>>)
    ensures IsRun(Init<T>(1), actions) && Quiet(Run(Init<T>(1), actions))
    ensures
      var r := Run(Init<T>(1), actions);
      |r.slots| == r.capacity == 1 && |DestroyRing(r).slots| == 1 && DestroyRing(r).slots[0].Live?
  {
    var before := RoundTrips(value, TWO_64 - 1);
    var r := Run(Init<T>(1), before);
    PushInv(r, value);
    PushRun(r, value);
    RunConcat(Init<T>(1), before, PushActions(r, value));
    actions := before + PushActions(r, value);
    var s := Run(Init<T>(1), actions);
    assert s.write == 0 && s.readLocal == TWO_64 - 1;
    assert SlotOf(s, s.freed) == Expected(s, s.freed);
  }
}

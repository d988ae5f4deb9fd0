// The ring itself (src/concurrency/spsc_ring.h): its fields, the rounding of its capacity, the two
// calls statement by statement and the destructor. Each statement is one step of the protocol in
// SpscProtocol, and `machine` is the protocol state the fields stand for.
module SpscRing {
  import opened Options
  import opened Words
  import opened SpscProtocol

  datatype RingError = NeedsAtLeastOneSlot

  // `rounded <<= 1` on a 64-bit word, `k` times from one.
  function Shifted(k: nat): Uint64 {
    if k == 0 then 1 else (2 * Shifted(k - 1)) % TWO_64
  }

  // The shift of a word whose top bit is clear doubles it; that of the top bit alone is zero.
  lemma ShiftOf(x: Uint64)
    ensures x < TWO_63 ==> (2 * x) % TWO_64 == 2 * x
    ensures x == TWO_63 ==> (2 * x) % TWO_64 == 0
  {
  }

  lemma {:induction false} ShiftedValue(k: nat)
    ensures Shifted(k) == if k <= 63 then Pow2(k) else 0
  {
    if k > 0 {
      ShiftedValue(k - 1);
      ShiftOf(Shifted(k - 1));
      HalfFits(k);
    }
  }

  lemma HalfFits(k: nat)
    requires k > 0
    ensures k <= 63 ==> Pow2(k - 1) < TWO_63
    ensures k == 64 ==> Pow2(k - 1) == TWO_63
  {
    Pow2Widths();
    if k <= 63 {
      Pow2Increases(k - 1, 63);
    }
  }

  // The rounding loop reaches a power of two that is large enough if and only if the request is at
  // most 2^63; above that the shift overflows to zero and the loop never ends.
  lemma RoundingEnds(capacity: Uint64)
    ensures (exists k: nat :: Shifted(k) >= capacity) <==> capacity <= TWO_63
  {
    Pow2Widths();
    if capacity <= TWO_63 {
      ShiftedValue(63);
      assert Shifted(63) >= capacity;
    } else {
      forall k: nat ensures Shifted(k) < capacity {
        ShiftedValue(k);
        if k < 63 {
          Pow2Increases(k, 63);
        }
      }
    }
  }

  // The rounding loop: the least power of two that is not below the request.
  method RoundUp(capacity: Uint64) returns (rounded: Uint64)
    requires 1 <= capacity <= TWO_63
    ensures capacity <= rounded <= TWO_63
    ensures exists k: nat :: k <= 63 && rounded == Pow2(k)
    ensures forall k: nat :: Pow2(k) >= capacity ==> rounded <= Pow2(k)
  {
    rounded := 1;
    ghost var k := 0;
    Pow2Widths();
    while rounded < capacity
      invariant k <= 63 && rounded == Pow2(k)
      invariant forall j: nat :: j < k ==> Pow2(j) < capacity
      decreases TWO_64 - rounded
    {
      if k == 63 {
        assert false;
      }
      if k < 62 {
        Pow2Increases(k + 1, 63);
      }
      rounded := 2 * rounded;
      k := k + 1;
    }
    if k < 63 {
      Pow2Increases(k, 63);
    }
    forall j: nat | Pow2(j) >= capacity ensures rounded <= Pow2(j) {
      if k < j {
        Pow2Increases(k, j);
      }
    }
  }

  // The raw storage of one slot: the protocol's slot without the number of its object.
  datatype Storage<+T> = Raw | Partial | Object(value: T) | Husk

  function Bare<T>(slot: Slot<T>): Storage<T> {
    match slot
    case Dead => Raw
    case HalfBuilt => Partial
    case Live(_, value) => Object(value)
    case MovedFrom(_) => Husk
  }

  class SpscRing<T> {
    const slots: array<Storage<T>>
    const capacity: nat
    var write: Uint64
    var writeLocal: Uint64
    var read: Uint64
    var readLocal: Uint64
    ghost var machine: Ring<T>

    // The storage is the protocol's.
    ghost predicate Stores()
      reads this, slots
    {
      && machine.capacity == capacity == slots.Length == |machine.slots|
      && forall i :: 0 <= i < capacity ==> slots[i] == Bare(machine.slots[i])
    }

    // The fields are the protocol's and no call is under way.
    ghost predicate Valid()
      reads this, slots
    {
      && Inv(machine) && Quiet(machine) && Stores()
      && machine.write == write && machine.writeLocal == writeLocal
      && machine.read == read && machine.readLocal == readLocal
    }

    // The values waiting, oldest first.
    ghost function Waiting(): seq<T>
      reads this
      requires Inv(machine)
    {
      machine.pushed[|machine.popped|..]
    }

    constructor (rounded: Uint64)
      requires exists k: nat :: k <= 63 && rounded == Pow2(k)
      ensures Valid() && capacity == rounded && Waiting() == []
      ensures fresh(slots)
    {
      slots := new Storage<T>[rounded](_ => Raw);
      capacity := rounded;
      write, writeLocal, read, readLocal := 0, 0, 0, 0;
      machine := Init<T>(rounded);
      new;
      ghost var k: nat :| k <= 63 && rounded == Pow2(k);
      InvInit<T>(k);
    }

    // The public constructor: refuses zero and rounds the request up.
    static method Make(request: Uint64) returns (made: Result<SpscRing<T>, RingError>)
      requires request <= TWO_63
      ensures made.Err? <==> request == 0
      ensures made.Ok? ==>
                && fresh(made.value) && fresh(made.value.slots) && made.value.Valid()
                && made.value.Waiting() == []
                && request <= made.value.capacity
                && forall k: nat :: Pow2(k) >= request ==> made.value.capacity <= Pow2(k)
    {
      if request == 0 {
        return Err(NeedsAtLeastOneSlot);
      }
      var rounded := RoundUp(request);
      var ring := new SpscRing<T>(rounded);
      made := Ok(ring);
    }

    // `try_emplace`, run while the consumer is not inside `try_pop`. A refused value leaves the queue
    // as it was; an accepted one is exactly the producer's five steps of the protocol.
    method TryEmplace(value: T) returns (accepted: bool)
      requires Valid()
      modifies this, slots
      ensures Valid()
      ensures accepted <==> |old(Waiting())| < capacity
      ensures Waiting() == if accepted then old(Waiting()) + [value] else old(Waiting())
      ensures machine.popped == old(machine.popped)
      ensures accepted ==>
                && IsRun(old(machine), PushActions(old(machine), value))
                && machine == Run(old(machine), PushActions(old(machine), value))
    {
      ghost var start := machine;
      ghost var load := ProducerLoad(value, machine.freed);
      TestsAreExact(start, load);
      var at: nat := writeLocal;
      if WordDifference(at, read) == capacity {
        InvNext(start, load);
        machine := Next(start, load);
        return false;
      }
      PushInv(start, value);
      PushRun(start, value);
      var i := Masked(capacity, at);
      slots[i] := Partial;
      slots[i] := Object(value);
      write := Wrap(at + 1);
      writeLocal := Wrap(at + 1);
      machine := Run(start, PushActions(start, value));
      accepted := true;
    }

    // `try_pop`, run while the producer is not inside `try_emplace`. None is the empty ring; otherwise
    // the call is exactly the consumer's five steps of the protocol.
    method TryPop() returns (out: Option<T>)
      requires Valid()
      modifies this, slots
      ensures Valid()
      ensures out == if old(Waiting()) == [] then None else Some(old(Waiting())[0])
      ensures Waiting() == if old(Waiting()) == [] then [] else old(Waiting())[1..]
      ensures machine.pushed == old(machine.pushed)
      ensures out.Some? ==>
                && IsRun(old(machine), PopActions(old(machine)))
                && machine == Run(old(machine), PopActions(old(machine)))
    {
      ghost var start := machine;
      ghost var load := ConsumerLoad(|machine.pushed|);
      TestsAreExact(start, load);
      var at: nat := readLocal;
      if at == write {
        InvNext(start, load);
        machine := Next(start, load);
        return None;
      }
      PopInv(start);
      PopRun(start);
      var i := Masked(capacity, at);
      out := Some(slots[i].value);
      slots[i] := Husk;
      slots[i] := Raw;
      read := Wrap(at + 1);
      readLocal := Wrap(at + 1);
      machine := Run(start, PopActions(start));
    }

    // Runs the destructor of whatever the slot of `index` holds.
    method EndObject(index: nat)
      requires Stores() && capacity > 0
      modifies this`machine, slots
      ensures Stores()
      ensures machine == SpscProtocol.Destruct(old(machine), Masked(capacity, index))
    {
      var i := Masked(capacity, index);
      machine := SpscProtocol.Destruct(machine, i);
      if slots[i].Object? || slots[i].Husk? {
        slots[i] := Raw;
      }
    }

    // Ends the objects of a range of indices, in order.
    method EndRange(from: Uint64, end: Uint64)
      requires Stores() && capacity > 0
      modifies this`machine, slots
      ensures Stores()
      ensures machine == Drain(old(machine), from, end)
    {
      var index: nat := from;
      while index < end
        invariant Stores()
        invariant Drain(machine, index, end) == Drain(old(machine), from, end)
        decreases end - index
      {
        EndObject(index);
        index := index + 1;
      }
    }

    // The destructor: every object still held is ended unless the words wrapped between the two sides.
    method Destruct()
      requires Valid()
      modifies this`machine, slots
      ensures machine == DestroyRing(old(machine)) && Stores()
      ensures AllEnded(machine) <==> readLocal <= write
    {
      DestructorOf(machine);
      CapacityFits(capacity);
      EndRange(readLocal, write);
    }
  }
}

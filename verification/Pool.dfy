/**
 The provided-buffer pool as the completion side mutates it: a ring of buffer ids
 that the kernel takes from and every dropped arrival puts back into.
 */
module Pool {
  import opened Arithmetic
  import opened Completion
  import Queue

  /** The low sixteen bits of a cursor: all that the kernel is shown. */
  function Low16(cursor: nat): nat { cursor % U16 }

  /** How far apart two such cursors are, wrapping. */
  function Apart16(a: nat, b: nat): nat { (a - b) % U16 }

  lemma LowBits(n: nat)
    ensures Low16(Queue.Cursor(n)) == Low16(n)
  {
  }

  /** Sixteen bits of each cursor are enough to tell how far apart they are. */
  lemma Distance16(n: nat, from: nat)
    requires from <= n <= from + U16 / 2 + 1
    ensures Apart16(Low16(n), Low16(from)) == n - from
  {
  }

  class BufferConsumer {
    const entries: nat
    const ring: Queue.Circular<nat>
    var shared: nat

    ghost predicate Sized()
      reads this, ring, ring.slots
    {
      ring.Counts() && ring.slots.Length == entries <= U16 / 2
    }

    /** `shared` is the tail the kernel sees. */
    ghost predicate Valid()
      reads this, ring, ring.slots
    {
      Sized() && shared == Low16(|ring.log|)
    }

    /** Every recycled id that the kernel has not taken is in its slot: none was written over. */
    ghost predicate Intact()
      reads this, ring, ring.slots
    {
      Valid() && ring.Valid()
    }

    constructor (ring: Queue.Circular<nat>)
      requires ring.Valid() && ring.slots.Length <= U16 / 2
      ensures Intact() && this.ring == ring && entries == ring.slots.Length
    {
      this.ring := ring;
      entries := ring.slots.Length;
      shared := Low16(ring.tail);
      new;
      LowBits(|ring.log|);
    }

    /** The ids that were recycled and not taken. */
    ghost function Available(): seq<nat>
      reads this, ring, ring.slots
      requires Sized()
    {
      ring.log[ring.from..]
    }

    /** The kernel's count of available buffers, from its own cursor and the shared tail. */
    ghost function KernelCounts(): nat
      reads this, ring
    {
      Apart16(shared, Low16(ring.from))
    }

    /** The id the kernel would take next. */
    ghost function NextPick(): nat
      reads this, ring, ring.slots
      requires Sized() && entries > 0
    {
      ring.slots[Queue.Index(ring.from, entries)]
    }

    /**
     `recycle`: it panics on an id out of range and looks at nothing else. With room the
     id goes behind all others; without, it replaces the oldest, which is lost.
     */
    method Recycle(id: nat)
      requires Sized() && id < entries
      modifies ring`tail, ring`log, ring.slots
      ensures Sized() && ring.log == old(ring.log) + [id] && Available() == old(Available()) + [id]
      ensures old(ring.Valid()) && |old(Available())| < entries ==> ring.Valid()
      ensures |old(Available())| == entries ==> NextPick() == id
    {
      if |ring.log| == ring.from + entries {
        Queue.SameSlot(ring.from, entries);
      }
      ring.Overwrite(id);
    }

    /** `commit`: show the kernel the tail. It then counts what is available, as long as that is not past a ring and one more. */
    method Commit()
      requires Sized()
      modifies this`shared
      ensures Valid()
      ensures |Available()| <= entries + 1 ==> KernelCounts() == |Available()|
    {
      shared := Low16(ring.tail);
      LowBits(|ring.log|);
      if |ring.log| <= ring.from + entries + 1 {
        Distance16(|ring.log|, ring.from);
      }
    }

    /** `recycle_and_commit`. Into a full ring, the kernel counts one more than there are. */
    method RecycleAndCommit(id: nat)
      requires Valid() && id < entries
      modifies this`shared, ring`tail, ring`log, ring.slots
      ensures Valid() && Available() == old(Available()) + [id]
      ensures old(Intact()) && |old(Available())| < entries ==> Intact() && KernelCounts() == |Available()|
      ensures old(Intact()) && |old(Available())| == entries ==> NextPick() == id && KernelCounts() == entries + 1
    {
      Recycle(id);
      Commit();
    }
  }

  /** `Arrival::drop`, for whatever a delivery still holds. */
  method DropArrival(pool: BufferConsumer, arrival: Option<nat>)
    requires pool.Valid() && (arrival.Some? ==> arrival.value < pool.entries)
    modifies pool, pool.ring`tail, pool.ring`log, pool.ring.slots
    ensures pool.Valid()
    ensures pool.Available() == old(pool.Available()) + (if arrival.Some? then [arrival.value] else [])
    ensures old(pool.Intact()) && |old(pool.Available())| < pool.entries ==> pool.Intact()
  {
    if arrival.Some? {
      pool.RecycleAndCommit(arrival.value);
    }
  }

  /** A finished multishot, whose last arrival can be taken out once. */
  class Finished {
    const receipt: Receipt
    var last: Option<nat>

    constructor (receipt: Receipt, last: Option<nat>)
      ensures this.receipt == receipt && this.last == last
    {
      this.receipt := receipt;
      this.last := last;
    }

    /** `take_last` */
    method TakeLast() returns (arrival: Option<nat>)
      modifies this
      ensures arrival == old(last) && last == None
    {
      arrival := last;
      last := None;
    }
  }

  /**
   Taking the last arrival out and then dropping it and the rest gives its slot back
   once, not twice.
   */
  method TakeThenDrop(pool: BufferConsumer, f: Finished)
    requires pool.Valid() && (f.last.Some? ==> f.last.value < pool.entries)
    modifies f, pool, pool.ring`tail, pool.ring`log, pool.ring.slots
    ensures pool.Valid() && f.last == None
    ensures pool.Available() == old(pool.Available()) + (if old(f.last).Some? then [old(f.last).value] else [])
  {
    var arrival := f.TakeLast();
    DropArrival(pool, arrival);
    DropArrival(pool, f.last);
  }
}

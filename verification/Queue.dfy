/**
 The two halves of a ring: a submission queue and a completion queue, each a
 circular buffer whose 32-bit cursors wrap.
 */
module Queue {
  import opened Completion
  import opened Identity
  import opened Request
  import opened Arithmetic

  /** A cursor of unbounded value `n`, as the 32 bits the ring holds. */
  function Cursor(n: nat): nat { n % U32 }

  /** `wrapping_sub` */
  function WrappingSub(a: nat, b: nat): nat { (a - b) % U32 }

  lemma WrappedDistance(a: nat, b: nat)
    requires b <= a < b + U32
    ensures WrappingSub(Cursor(a), Cursor(b)) == a - b
  {
  }

  function Advance(cursor: nat): nat { (cursor + 1) % U32 }

  lemma CursorSteps(n: nat)
    ensures Advance(Cursor(n)) == Cursor(n + 1)
  {
  }

  /** `push`'s test for a full ring, on wrapped cursors. */
  lemma FullTest(n: nat, from: nat, cap: nat)
    requires from <= n <= from + cap && cap <= U32 / 2
    ensures WrappingSub(Advance(Cursor(n)), Cursor(from)) > cap <==> n == from + cap
  {
    WrappedDistance(n + 1, from);
    CursorSteps(n);
  }

  lemma CursorsMeet(a: nat, b: nat)
    requires b <= a < b + U32
    ensures Cursor(a) == Cursor(b) <==> a == b
  {
  }

  function Pow2(k: nat): (p: nat)
    ensures p > 0
  {
    if k == 0 then 1 else 2 * Pow2(k - 1)
  }

  /** A ring's size is a power of two below 2^32. */
  ghost predicate Size(cap: nat) { exists k: nat :: k < 32 && cap == Pow2(k) }

  /** `cursor & mask`: the slot an index falls in, folding a ring's length away at a time. */
  function Index(n: nat, cap: nat): (i: nat)
    requires cap > 0
    ensures i < cap
    decreases n
  {
    if n < cap then n else Index(n - cap, cap)
  }

  lemma {:induction false} IndexIsMod(n: nat, cap: nat)
    requires cap > 0
    ensures Index(n, cap) == n % cap
    decreases n
  {
    if n < cap {
      ModUnique(n, cap, 0, n);
    } else {
      IndexIsMod(n - cap, cap);
      ModUnique(cap, cap, 1, 0);
      SumMod(cap, n - cap, cap);
    }
  }

  lemma {:induction false} Pow2Divides(j: nat, k: nat)
    requires j <= k
    ensures Pow2(k) % Pow2(j) == 0
  {
    if j == k {
      ModUnique(Pow2(k), Pow2(k), 1, 0);
    } else {
      Pow2Divides(j, k - 1);
      ScaleMod(Pow2(k - 1), 2, Pow2(j));
    }
  }

  lemma Pow2Of32()
    ensures Pow2(32) == U32
  {
    assert Pow2(8) == 0x100;
    assert Pow2(16) == 0x1_0000;
    assert Pow2(24) == 0x100_0000;
  }

  lemma {:induction false} Pow2Below(j: nat, k: nat)
    requires j < k
    ensures Pow2(j) < Pow2(k)
  {
    if j + 1 < k {
      Pow2Below(j, k - 1);
    }
  }

  lemma SizeBound(cap: nat)
    requires Size(cap)
    ensures 0 < cap <= U32 / 2
  {
    var k: nat :| k < 32 && cap == Pow2(k);
    Pow2Below(k, 32);
    if k < 31 {
      Pow2Below(k + 1, 32);
    }
    Pow2Of32();
  }

  lemma SizeDivides(cap: nat)
    requires Size(cap)
    ensures cap > 0 && U32 % cap == 0
  {
    var k: nat :| k < 32 && cap == Pow2(k);
    Pow2Divides(k, 32);
    Pow2Of32();
  }

  /** Wrapping a cursor does not move its slot. */
  lemma SlotOfCursor(n: nat, cap: nat)
    requires Size(cap)
    ensures 0 < cap < U32 && Index(Cursor(n), cap) == Index(n, cap)
  {
    SizeBound(cap);
    SizeDivides(cap);
    var q := n / U32;
    assert n == U32 * q + Cursor(n);
    ScaleMod(U32, q, cap);
    SumMod(U32 * q, Cursor(n), cap);
    IndexIsMod(n, cap);
    IndexIsMod(Cursor(n), cap);
  }

  /** Entries closer than the ring's size are in different slots. */
  lemma {:induction false} SlotsDiffer(i: nat, j: nat, cap: nat)
    requires i < j < i + cap
    ensures Index(i, cap) != Index(j, cap)
    decreases i
  {
    if i >= cap {
      SlotsDiffer(i - cap, j - cap, cap);
    }
  }

  /** A whole ring's length further on is the same slot. */
  lemma SameSlot(n: nat, cap: nat)
    requires cap > 0
    ensures Index(n + cap, cap) == Index(n, cap)
  {
  }

  /** The entries of `log` from `from` on are in the slots, each where its index falls. */
  ghost predicate Window<T>(slots: seq<T>, log: seq<T>, from: nat) {
    && |slots| > 0 && from <= |log| <= from + |slots|
    && forall i :: from <= i < |log| ==> slots[Index(i, |slots|)] == log[i]
  }

  /** A new entry lands on no entry still in the window. */
  lemma WindowGrows<T>(slots: seq<T>, log: seq<T>, from: nat, x: T)
    requires Window(slots, log, from) && |log| < from + |slots|
    ensures Window(slots[Index(|log|, |slots|) := x], log + [x], from)
  {
    var n := |slots|;
    var slots' := slots[Index(|log|, n) := x];
    forall i | from <= i < |log| + 1
      ensures slots'[Index(i, n)] == (log + [x])[i]
    {
      if i < |log| {
        SlotsDiffer(i, |log|, n);
      }
    }
  }

  /** The oldest entry is where its index says, and may be let go. */
  lemma WindowShrinks<T>(slots: seq<T>, log: seq<T>, from: nat)
    requires Window(slots, log, from) && from < |log|
    ensures slots[Index(from, |slots|)] == log[from] && Window(slots, log, from + 1)
  {
  }

  /** Writing at the tail cursor appends. */
  lemma TailWrites<T>(slots: seq<T>, log: seq<T>, from: nat, x: T)
    requires Size(|slots|) && Window(slots, log, from) && |log| < from + |slots|
    ensures Window(slots[Index(Cursor(|log|), |slots|) := x], log + [x], from)
  {
    SlotOfCursor(|log|, |slots|);
    WindowGrows(slots, log, from, x);
  }

  /** Reading at the head cursor finds the oldest entry. */
  lemma HeadReads<T>(slots: seq<T>, log: seq<T>, from: nat)
    requires Size(|slots|) && Window(slots, log, from) && from < |log|
    ensures slots[Index(Cursor(from), |slots|)] == log[from] && Window(slots, log, from + 1)
  {
    SlotOfCursor(from, |slots|);
    WindowShrinks(slots, log, from);
  }

  /**
   A ring shared with the kernel: slots and two cursors. `log` is everything ever
   put in and `from` how much of it has been taken out.
   */
  class Circular<T> {
    const slots: array<T>
    var head: nat
    var tail: nat
    ghost var log: seq<T>
    ghost var from: nat

    ghost predicate Valid()
      reads this, slots
    {
      && Size(slots.Length) && Window(slots[..], log, from)
      && head == Cursor(from) && tail == Cursor(|log|)
    }

    constructor (cap: nat, blank: T)
      requires Size(cap)
      ensures Valid() && slots.Length == cap && log == [] && from == 0 && fresh(slots)
    {
      slots := new T[cap](_ => blank);
      head, tail := 0, 0;
      log, from := [], 0;
    }

    /** There is room exactly when fewer entries than slots are waiting, whatever the cursors wrapped to. */
    method HasRoom() returns (room: bool)
      requires Valid()
      ensures room <==> |log| < from + slots.Length
    {
      SizeBound(slots.Length);
      FullTest(|log|, from, slots.Length);
      var next := Advance(tail);
      room := !(WrappingSub(next, head) > slots.Length);
    }

    method IsEmpty() returns (empty: bool)
      requires Valid()
      ensures empty <==> from == |log|
    {
      SizeBound(slots.Length);
      CursorsMeet(|log|, from);
      empty := head == tail;
    }

    /** The cursors are right, whatever the slots hold. */
    ghost predicate Counts()
      reads this, slots
    {
      Size(slots.Length) && from <= |log| && head == Cursor(from) && tail == Cursor(|log|)
    }

    /** Write at the tail without looking: right while there is room, and over the oldest entry when there is none. */
    method Overwrite(x: T)
      requires Counts()
      modifies this`tail, this`log, slots
      ensures Counts() && log == old(log) + [x]
      ensures slots[..] == old(slots[..])[Index(|old(log)|, slots.Length) := x]
      ensures old(Valid()) && |old(log)| < from + slots.Length ==> Valid()
    {
      ghost var was := slots[..];
      if Valid() && |log| < from + slots.Length {
        TailWrites(was, log, from, x);
      }
      SlotOfCursor(|log|, slots.Length);
      CursorSteps(|log|);
      var i := Index(tail, slots.Length);
      slots[i] := x;
      assert slots[..] == was[i := x];
      tail := Advance(tail);
      log := log + [x];
    }

    method Put(x: T)
      requires Valid() && |log| < from + slots.Length
      modifies this`tail, this`log, slots
      ensures Valid() && log == old(log) + [x]
    {
      Overwrite(x);
    }

    /** Put in as many of these as there is room for. */
    method PutSome(xs: seq<T>)
      requires Valid()
      modifies this`tail, this`log, slots
      ensures Valid() && exists n: nat :: n <= |xs| && log == old(log) + xs[..n]
    {
      var i := 0;
      assert log == old(log) + xs[..0];
      while i < |xs|
        invariant 0 <= i <= |xs| && Valid() && log == old(log) + xs[..i]
      {
        var room := HasRoom();
        if !room {
          return;
        }
        Put(xs[i]);
        assert xs[..i + 1] == xs[..i] + [xs[i]];
        i := i + 1;
      }
    }

    method Get() returns (x: T)
      requires Valid() && from < |log|
      modifies this`head, this`from
      ensures Valid() && from == old(from) + 1 && x == log[old(from)]
    {
      HeadReads(slots[..], log, from);
      CursorSteps(from);
      x := slots[Index(head, slots.Length)];
      head := Advance(head);
      from := from + 1;
    }
  }

  // ----- submission -----

  datatype PushResult = Accepted(ticket: Pending) | Full(request: Prepared)

  /** A submission queue as its caller and the kernel see it. */
  datatype Sq = Sq(log: seq<Entry>, from: nat, cap: nat, drawn: nat)
  {
    predicate HasRoom() { |log| < from + cap }
  }

  /** What `push` is to do: the id is spent either way, and a refused request comes back as it was. */
  function Pushed(q: Sq, ring: nat, p: Prepared): (Sq, PushResult) {
    var id := Draw(U64, q.drawn);
    if q.HasRoom() then
      (Sq(q.log + [SqeOf(p, id)], q.from, q.cap, q.drawn + 1), Accepted(IntoPending(p, ring, id).1))
    else
      (Sq(q.log, q.from, q.cap, q.drawn + 1), Full(p))
  }

  class OwnedSubmitter {
    const ring: nat
    const ids: Source
    const sq: Circular<Entry>

    ghost predicate Valid()
      reads this, ids, sq, sq.slots
    {
      ids.Valid() && ids.width == U64 && sq.Valid()
    }

    ghost function View(): Sq
      reads this, ids, sq, sq.slots
    {
      Sq(sq.log, sq.from, sq.slots.Length, ids.drawn)
    }

    constructor (ring: nat, sq: Circular<Entry>)
      requires sq.Valid()
      ensures Valid() && this.ring == ring && this.sq == sq && fresh(ids) && ids.drawn == 0
    {
      this.ring := ring;
      this.sq := sq;
      ids := new Source(U64);
    }

    /**
     `push`: accepted exactly when the kernel has left room; refused, the caller has its
     request back and not even the slots have changed.
     */
    method Push(request: Prepared) returns (r: PushResult)
      requires Valid()
      modifies ids, sq`tail, sq`log, sq.slots
      ensures Valid() && (View(), r) == Pushed(old(View()), ring, request)
      ensures ids.drawn == old(ids.drawn) + 1 && (r.Accepted? <==> |old(sq.log)| < sq.from + sq.slots.Length)
      ensures r.Accepted? ==>
        && |sq.log| == |old(sq.log)| + 1 && sq.log[..|old(sq.log)|] == old(sq.log)
        && AsksFor(sq.log[|old(sq.log)|]) == MeantBy(request)
        && sq.log[|old(sq.log)|].userData == r.ticket.id == Draw(U64, old(ids.drawn)) && r.ticket.ring == ring
        && KeptMemory(r.ticket) == request.Memory()
      ensures r.Full? ==> r.request == request && sq.log == old(sq.log) && sq.slots[..] == old(sq.slots[..])
    {
      var id := ids.Next();
      var (sqe, pending) := IntoPending(request, ring, id);
      EntryMeans(request, id);
      TicketKeepsMemory(request, ring, id);
      var room := sq.HasRoom();
      if room {
        sq.Put(sqe);
        return Accepted(pending);
      }
      RefusalIsIdentity(request, ring, id);
      return Full(HandedBack(request, pending));
    }
  }

  // ----- completion -----

  /** The index of the first terminal completion from `from` on, or the end. */
  function NextTerminal(cs: seq<Cqe>, from: nat): (t: nat)
    requires from <= |cs|
    ensures from <= t <= |cs|
    decreases |cs| - from
  {
    if from == |cs| || cs[from].Terminal() then from else NextTerminal(cs, from + 1)
  }

  function ReceiptOf(ring: nat, c: Cqe): Receipt { Receipt(ring, c.userData, c.result, c.flags) }

  /** What one call reports, and where it leaves the cursor. */
  datatype Polled<T> = Polled(value: Option<T>, from: nat)

  /** `reap_event` on these completions: the oldest, consumed. */
  function EventAt(ring: nat, cs: seq<Cqe>, from: nat): (p: Polled<Event>)
    requires from <= |cs|
    ensures from <= p.from <= |cs|
  {
    if from == |cs| then Polled(None, from) else Polled(Some(EventOf(ring, cs[from])), from + 1)
  }

  /** `reap` on these completions: everything up to the first terminal one, and its receipt. */
  function ReceiptAt(ring: nat, cs: seq<Cqe>, from: nat): (p: Polled<Receipt>)
    requires from <= |cs|
    ensures from <= p.from <= |cs| && (p.value.Some? ==> from < p.from)
  {
    var t := NextTerminal(cs, from);
    if t == |cs| then Polled(None, t) else Polled(Some(ReceiptOf(ring, cs[t])), t + 1)
  }

  /** One poll reports the oldest completion, all of it, and steps past it; on an empty queue it reports nothing. */
  lemma EventAtOldest(ring: nat, cs: seq<Cqe>, from: nat)
    requires from <= |cs|
    ensures var p := EventAt(ring, cs, from);
            if from == |cs| then p.value.None? && p.from == from
            else
              && p.from == from + 1 && p.value.Some?
              && (var e := p.value.value;
                  && e.Ring() == ring && e.Id() == cs[from].userData && e.Result() == cs[from].result
                  && e.CqeFlags() == cs[from].flags && (e.Complete? <==> !Has(cs[from].flags, MORE)))
  {
  }

  /** If completion `t` is the first without `MORE`, `reap` answers with its receipt and stops behind it. */
  lemma ReapReturns(ring: nat, cs: seq<Cqe>, from: nat, t: nat)
    requires from <= t < |cs| && !Has(cs[t].flags, MORE) && forall i :: from <= i < t ==> Has(cs[i].flags, MORE)
    ensures ReceiptAt(ring, cs, from) == Polled(Some(Receipt(ring, cs[t].userData, cs[t].result, cs[t].flags)), t + 1)
  {
    SkipsTo(cs, from, t);
  }

  /** If there is none, it answers with nothing and has consumed everything. */
  lemma ReapFindsNone(ring: nat, cs: seq<Cqe>, from: nat)
    requires from <= |cs| && forall i :: from <= i < |cs| ==> Has(cs[i].flags, MORE)
    ensures ReceiptAt(ring, cs, from) == Polled(None, |cs|)
  {
    SkipsTo(cs, from, |cs|);
  }

  lemma {:induction false} SkipsTo(cs: seq<Cqe>, a: nat, b: nat)
    requires a <= b <= |cs| && forall i :: a <= i < b ==> !cs[i].Terminal()
    ensures NextTerminal(cs, a) == NextTerminal(cs, b)
    decreases b - a
  {
    if a < b {
      SkipsTo(cs, a + 1, b);
    }
  }

  datatype WaitResult = Got(receipt: Receipt) | NoCompletion | WaitFailed(errno: nat)

  class OwnedCompleter {
    const ring: nat
    const cq: Circular<Cqe>

    ghost predicate Valid()
      reads this, cq, cq.slots
    {
      cq.Valid()
    }

    constructor (ring: nat, cq: Circular<Cqe>)
      requires cq.Valid()
      ensures Valid() && this.ring == ring && this.cq == cq
    {
      this.ring := ring;
      this.cq := cq;
    }

    /** `complete` */
    method Complete() returns (r: Option<Cqe>)
      requires Valid()
      modifies cq`head, cq`from
      ensures Valid()
      ensures if old(cq.from) == |cq.log| then r.None? && cq.from == old(cq.from)
              else r == Some(cq.log[old(cq.from)]) && cq.from == old(cq.from) + 1
    {
      var empty := cq.IsEmpty();
      if empty {
        return None;
      }
      var c := cq.Get();
      return Some(c);
    }

    /** `reap_event`: the oldest completion, releasing storage only if the kernel said it is the last. */
    method ReapEvent() returns (r: Option<Event>)
      requires Valid()
      modifies cq`head, cq`from
      ensures Valid()
      ensures Polled(r, cq.from) == EventAt(ring, cq.log, old(cq.from))
    {
      var c := Complete();
      if c.None? {
        return None;
      }
      if Has(c.value.flags, MORE) {
        return Some(Partial(PartialReceipt(ring, c.value.userData, c.value.result, c.value.flags)));
      }
      return Some(Event.Complete(Receipt(ring, c.value.userData, c.value.result, c.value.flags)));
    }

    /**
     `reap`: consume the leading non-terminal completions and the first terminal one,
     and return that. `during[i]` is what the kernel posts just before the `i`-th poll.
     */
    method Reap(during: seq<seq<Cqe>>) returns (r: Option<Receipt>)
      requires Valid()
      modifies cq, cq.slots
      ensures Valid() && old(cq.log) <= cq.log
      ensures Polled(r, cq.from) == ReceiptAt(ring, cq.log, old(cq.from))
    {
      var i := 0;
      while true
        invariant 0 <= i <= |during| && Valid() && old(cq.log) <= cq.log && old(cq.from) <= cq.from
        invariant forall k :: old(cq.from) <= k < cq.from ==> !cq.log[k].Terminal()
        decreases |during| - i, |cq.log| - cq.from
      {
        if i < |during| {
          cq.PutSome(during[i]);
          i := i + 1;
        }
        SkipsTo(cq.log, old(cq.from), cq.from);
        var e := ReapEvent();
        if e.None? {
          return None;
        }
        if e.value.Complete? {
          return Some(e.value.receipt);
        }
      }
    }

    /** `wait_one`, given what `io_uring_enter` answered. */
    method WaitOne(enter: Option<nat>, during: seq<seq<Cqe>>) returns (r: WaitResult)
      requires Valid()
      modifies cq, cq.slots
      ensures Valid() && old(cq.log) <= cq.log
      ensures enter.Some? ==> r == WaitFailed(enter.value) && cq.from == old(cq.from) && cq.log == old(cq.log)
      ensures enter.None? ==>
        var p := ReceiptAt(ring, cq.log, old(cq.from));
        cq.from == p.from && r == if p.value.Some? then Got(p.value.value) else NoCompletion
    {
      if enter.Some? {
        return WaitFailed(enter.value);
      }
      var got := Reap(during);
      match got
      case None => return NoCompletion;
      case Some(rc) => return Got(rc);
    }
  }

  /** What `reap` skips is exactly the leading run of completions that promise more. */
  lemma {:induction false} NextTerminalIsFirst(cs: seq<Cqe>, from: nat)
    requires from <= |cs|
    ensures var t := NextTerminal(cs, from);
            && (forall i :: from <= i < t ==> Has(cs[i].flags, MORE))
            && (t < |cs| ==> !Has(cs[t].flags, MORE))
    decreases |cs| - from
  {
    if from < |cs| && !cs[from].Terminal() {
      NextTerminalIsFirst(cs, from + 1);
    }
  }

  /** The receipts obtained by calling `reap` until it has none. */
  function Drained(ring: nat, cs: seq<Cqe>, from: nat): seq<Receipt>
    requires from <= |cs|
    decreases |cs| - from
  {
    var p := ReceiptAt(ring, cs, from);
    match p.value
    case None => []
    case Some(rc) => [rc] + Drained(ring, cs, p.from)
  }

  /** The receipts among the events that calling `reap_event` until it has none reports, in order. */
  function Receipts(ring: nat, cs: seq<Cqe>, from: nat): seq<Receipt>
    requires from <= |cs|
    decreases |cs| - from
  {
    if from == |cs| then [] else Reported(EventAt(ring, cs, from).value) + Receipts(ring, cs, from + 1)
  }

  /** The receipt an event brings, if it brings one. */
  function Reported(e: Option<Event>): seq<Receipt> {
    if e.Some? && e.value.Complete? then [e.value.receipt] else []
  }

  lemma {:induction false} ReceiptsSkip(ring: nat, cs: seq<Cqe>, from: nat, t: nat)
    requires from <= t <= |cs| && forall i :: from <= i < t ==> Has(cs[i].flags, MORE)
    ensures Receipts(ring, cs, from) == Receipts(ring, cs, t)
    decreases t - from
  {
    if from < t {
      ReceiptsSkip(ring, cs, from + 1, t);
    }
  }

  /** One call of `reap`, as the draining sees it. */
  lemma DrainedStep(ring: nat, cs: seq<Cqe>, from: nat, t: nat)
    requires from <= t <= |cs| && forall i :: from <= i < t ==> Has(cs[i].flags, MORE)
    requires t < |cs| ==> !Has(cs[t].flags, MORE)
    ensures Drained(ring, cs, from)
         == if t == |cs| then []
            else [Receipt(ring, cs[t].userData, cs[t].result, cs[t].flags)] + Drained(ring, cs, t + 1)
  {
    if t < |cs| {
      ReapReturns(ring, cs, from, t);
    } else {
      ReapFindsNone(ring, cs, from);
    }
  }

  lemma ReceiptsHead(ring: nat, cs: seq<Cqe>, t: nat)
    requires t < |cs| && !Has(cs[t].flags, MORE)
    ensures Receipts(ring, cs, t)
         == [Receipt(ring, cs[t].userData, cs[t].result, cs[t].flags)] + Receipts(ring, cs, t + 1)
  {
  }

  /** `reap` refines `reap_event`: over a whole queue it yields the same receipts in the same order. */
  lemma {:induction false} DrainsAllReceipts(ring: nat, cs: seq<Cqe>, from: nat)
    requires from <= |cs|
    ensures Drained(ring, cs, from) == Receipts(ring, cs, from)
    decreases |cs| - from
  {
    var t := NextTerminal(cs, from);
    NextTerminalIsFirst(cs, from);
    ReceiptsSkip(ring, cs, from, t);
    DrainedStep(ring, cs, from, t);
    if t < |cs| {
      ReceiptsHead(ring, cs, t);
      DrainsAllReceipts(ring, cs, t + 1);
    }
  }

  /** How many of these completions are the last of their request. */
  function Finals(cs: seq<Cqe>, from: nat): nat
    requires from <= |cs|
    decreases |cs| - from
  {
    if from == |cs| then 0 else Bit(cs[from].Terminal()) + Finals(cs, from + 1)
  }

  /** One step of the draining: one receipt exactly for a completion that is the last. */
  lemma ReceiptsStep(ring: nat, cs: seq<Cqe>, from: nat)
    requires from < |cs|
    ensures |Receipts(ring, cs, from)| == Bit(cs[from].Terminal()) + |Receipts(ring, cs, from + 1)|
  {
    EventAtOldest(ring, cs, from);
  }

  lemma {:induction false} ReceiptsCount(ring: nat, cs: seq<Cqe>, from: nat)
    requires from <= |cs|
    ensures |Receipts(ring, cs, from)| == Finals(cs, from)
    decreases |cs| - from
  {
    if from < |cs| {
      ReceiptsStep(ring, cs, from);
      ReceiptsCount(ring, cs, from + 1);
    }
  }

  lemma {:induction false} FinalsAllIff(cs: seq<Cqe>, from: nat)
    requires from <= |cs|
    ensures Finals(cs, from) <= |cs| - from
    ensures Finals(cs, from) == |cs| - from <==> forall i :: from <= i < |cs| ==> cs[i].Terminal()
    decreases |cs| - from
  {
    if from < |cs| {
      FinalsAllIff(cs, from + 1);
    }
  }

  /** It loses no completion exactly on rings whose requests all finish in one. */
  lemma DrainLosesNothingIff(ring: nat, cs: seq<Cqe>, from: nat)
    requires from <= |cs|
    ensures |Drained(ring, cs, from)| == |cs| - from <==> forall i :: from <= i < |cs| ==> !Has(cs[i].flags, MORE)
  {
    DrainsAllReceipts(ring, cs, from);
    ReceiptsCount(ring, cs, from);
    FinalsAllIff(cs, from);
    assert forall i :: from <= i < |cs| ==> (cs[i].Terminal() <==> !Has(cs[i].flags, MORE));
  }

  /** Both calls report the same thing and leave the cursor in the same place. */
  predicate SameAnswer(reap: Polled<Receipt>, event: Polled<Event>) {
    && reap.from == event.from
    && event.value == match reap.value { case Some(rc) => Some(Complete(rc)) case None => None }
  }

  /** One `reap` answers as one `reap_event` exactly when the oldest completion is terminal or there is none. */
  lemma ReapAnswersAsReapEventIff(ring: nat, cs: seq<Cqe>, from: nat)
    requires from <= |cs|
    ensures SameAnswer(ReceiptAt(ring, cs, from), EventAt(ring, cs, from))
       <==> from == |cs| || !Has(cs[from].flags, MORE)
  {
    NextTerminalIsFirst(cs, from);
  }

  /** On a queue whose requests all finish in one completion, every `reap` does, wherever the cursor is. */
  lemma ReapIsReapEventEverywhereIff(ring: nat, cs: seq<Cqe>)
    ensures (forall from: nat :: from <= |cs| ==> SameAnswer(ReceiptAt(ring, cs, from), EventAt(ring, cs, from)))
       <==> forall i :: 0 <= i < |cs| ==> !Has(cs[i].flags, MORE)
  {
    forall from: nat | from <= |cs|
      ensures SameAnswer(ReceiptAt(ring, cs, from), EventAt(ring, cs, from))
         <==> from == |cs| || !Has(cs[from].flags, MORE)
    {
      ReapAnswersAsReapEventIff(ring, cs, from);
    }
  }
}

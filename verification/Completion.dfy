/**
 Completions: the CQE as the kernel posts it, and what reaping one authorizes.
 */
module Completion {
  import opened Arithmetic

  datatype Option<T> = None | Some(value: T)

  // Bits of a CQE's flag word; a pool buffer id sits in the upper half.
  const BUFFER: nat := 1
  const MORE: nat := 2
  const SOCK_NONEMPTY: nat := 4
  const NOTIF: nat := 8
  const BUF_MORE: nat := 16

  predicate Has(flags: nat, bit: nat)
    requires bit > 0
  {
    (flags / bit) % 2 == 1
  }

  /** `CqeFlags::buffer_id`: present only when the kernel says it chose one. */
  function BufferId(flags: nat): Option<nat> {
    if Has(flags, BUFFER) then Some(flags / 0x1_0000 % 0x1_0000) else None
  }

  /** The flag word the kernel posts for these facts. */
  function Flags(buffer: Option<nat>, more: bool, sock: bool, notif: bool, bufMore: bool): nat {
    (if buffer.Some? then 1 + buffer.value * 0x1_0000 else 0)
    + 2 * Bit(more) + 4 * Bit(sock) + 8 * Bit(notif) + 16 * Bit(bufMore)
  }

  /** An even multiple of a bit above it does not disturb that bit. */
  lemma BitUnder(k: nat, bit: nat, low: nat)
    requires bit > 0
    ensures ((2 * k) * bit + low) / bit % 2 == low / bit % 2
  {
    var f, q, r := (2 * k) * bit + low, 2 * k + low / bit, low % bit;
    assert low == bit * (low / bit) + r;
    assert f == bit * q + r;
    ModUnique(f, bit, q, r);
  }

  /** The five low bits, told apart. */
  function Low(b0: bool, b1: bool, b2: bool, b3: bool, b4: bool): nat {
    Bit(b0) + 2 * Bit(b1) + 4 * Bit(b2) + 8 * Bit(b3) + 16 * Bit(b4)
  }

  lemma LowDecode(b0: bool, b1: bool, b2: bool, b3: bool, b4: bool)
    ensures var l := Low(b0, b1, b2, b3, b4);
            l < 32 && l / 1 % 2 == Bit(b0) && l / 2 % 2 == Bit(b1) && l / 4 % 2 == Bit(b2)
            && l / 8 % 2 == Bit(b3) && l / 16 % 2 == Bit(b4)
  {
  }

  /** A buffer id above them moves none of them. */
  lemma HighLeaves(id: nat, low: nat)
    ensures var f := id * 0x1_0000 + low;
            && f / 1 % 2 == low / 1 % 2 && f / 2 % 2 == low / 2 % 2 && f / 4 % 2 == low / 4 % 2
            && f / 8 % 2 == low / 8 % 2 && f / 16 % 2 == low / 16 % 2
  {
    BitUnder(id * 0x8000, 1, low);
    BitUnder(id * 0x4000, 2, low);
    BitUnder(id * 0x2000, 4, low);
    BitUnder(id * 0x1000, 8, low);
    BitUnder(id * 0x800, 16, low);
  }

  /** Every fact the kernel packs into the word is read back unmixed. */
  lemma FlagsDecode(buffer: Option<nat>, more: bool, sock: bool, notif: bool, bufMore: bool)
    requires buffer.Some? ==> buffer.value < 0x1_0000
    ensures var f := Flags(buffer, more, sock, notif, bufMore);
            && BufferId(f) == buffer
            && Has(f, MORE) == more && Has(f, SOCK_NONEMPTY) == sock
            && Has(f, NOTIF) == notif && Has(f, BUF_MORE) == bufMore
  {
    var id := if buffer.Some? then buffer.value else 0;
    var low := Low(buffer.Some?, more, sock, notif, bufMore);
    assert Flags(buffer, more, sock, notif, bufMore) == id * 0x1_0000 + low;
    LowDecode(buffer.Some?, more, sock, notif, bufMore);
    HighLeaves(id, low);
    ModUnique(id * 0x1_0000 + low, 0x1_0000, id, low);
  }

  datatype Cqe = Cqe(userData: nat, result: int, flags: nat)
  {
    predicate Terminal() { !Has(flags, MORE) }
  }

  /** Proof of a terminal completion; `PartialReceipt` is the same for a non-terminal one. */
  datatype Receipt = Receipt(ring: nat, id: nat, result: int, flags: nat)
  {
    predicate BelongsTo(r: nat, i: nat) { id == i && ring == r }
  }

  datatype PartialReceipt = PartialReceipt(ring: nat, id: nat, result: int, flags: nat)
  {
    predicate BelongsTo(r: nat, i: nat) { id == i && ring == r }
  }

  datatype Event = Complete(receipt: Receipt) | Partial(partial: PartialReceipt)
  {
    function Ring(): nat { if Complete? then receipt.ring else partial.ring }

    function Id(): nat { if Complete? then receipt.id else partial.id }

    function Result(): int { if Complete? then receipt.result else partial.result }

    function CqeFlags(): nat { if Complete? then receipt.flags else partial.flags }

    predicate BelongsTo(r: nat, i: nat) {
      match this
      case Complete(rc) => rc.BelongsTo(r, i)
      case Partial(p) => p.BelongsTo(r, i)
    }
  }

  /** `reap_event` on one CQE: the kernel's own flag decides what it releases. */
  function EventOf(ring: nat, c: Cqe): Event {
    if Has(c.flags, MORE) then Partial(PartialReceipt(ring, c.userData, c.result, c.flags))
    else Complete(Receipt(ring, c.userData, c.result, c.flags))
  }

  /** A raw result as the crate reports it: a count, or the errno. */
  datatype Outcome = Ok(count: nat) | Failed(errno: nat)

  function OutcomeOf(result: int): Outcome {
    if result < 0 then Failed(-result) else Ok(result)
  }

  /** A raw result is an errno exactly when it is negative, a count exactly when it is not. */
  lemma OutcomeSays(result: int)
    ensures forall errno: nat :: OutcomeOf(result) == Failed(errno) <==> errno > 0 && result + errno == 0
    ensures forall count: nat :: OutcomeOf(result) == Ok(count) <==> result == count
  {
  }

  /** An event is its completion, all of it, on its ring; and it releases exactly if the kernel said it is the last. */
  lemma EventCarries(ring: nat, c: Cqe)
    ensures var e := EventOf(ring, c);
            && e.Ring() == ring && e.Id() == c.userData && e.Result() == c.result && e.CqeFlags() == c.flags
            && (Has(c.flags, MORE) ==> e == Partial(PartialReceipt(ring, c.userData, c.result, c.flags)))
            && (!Has(c.flags, MORE) ==> e == Complete(Receipt(ring, c.userData, c.result, c.flags)))
  {
  }
}

/**
 Registered-file table slots: how a target travels in an SQE and which slot a
 completion names.
 */
module Slots {
  import opened Arithmetic
  import opened Completion

  /** `IORING_FILE_INDEX_ALLOC`. */
  const ALLOC: nat := U32 - 1

  /** `SlotIndex::MAX`: its encoding, one higher, must stay below `ALLOC`. */
  const MAX_SLOT: nat := U32 - 3

  /** `as i32`: the same 32 bits, read as signed. */
  function AsI32(x: nat): int
    requires x < U32
  {
    if x < U32 / 2 then x else x - U32
  }

  /** `as u32`: the same 32 bits, read as unsigned. */
  function AsU32(x: int): nat { x % U32 }

  predicate IsI32(x: int) { -(U32 / 2) <= x < U32 / 2 }

  datatype Target = Auto | Exact(slot: nat)
  {
    predicate Valid() { Exact? ==> slot <= MAX_SLOT }

    /** `SlotTarget::raw`. */
    function Raw(): int
      requires Valid()
    {
      match this
      case Auto => AsI32(ALLOC)
      case Exact(slot) => AsI32(slot + 1)
    }

    /** `SlotTarget::resolve`: only `Auto` believes the result. */
    function Resolve(result: int): Option<nat> {
      match this
      case Exact(slot) => Some(slot)
      case Auto => if result < 0 then None else SlotIndex(AsU32(result))
    }
  }

  /** `SlotIndex::new` */
  function SlotIndex(index: nat): Option<nat> {
    if index > MAX_SLOT then None else Some(index)
  }

  // ----- the kernel's side -----

  /** What the kernel makes of `sqe->file_index`. */
  datatype Request = NotDirect | AllocateOne | InstallAt(slot: nat)

  function KernelReads(raw: int): Request {
    var x := AsU32(raw);
    if x == 0 then NotDirect else if x == ALLOC then AllocateOne else InstallAt(x - 1)
  }

  /** A successful install: where the file went and what the CQE says. */
  datatype Installed = Installed(slot: nat, result: int)

  /**
   The kernel's outcomes: an allocated slot is any index it chose, reported as the
   result; an explicit install reports zero.
   */
  predicate KernelMayInstall(req: Request, o: Installed) {
    match req
    case NotDirect => false
    case AllocateOne => o.slot < U32 / 2 && o.result == o.slot
    case InstallAt(slot) => o.slot == slot && o.result == 0
  }

  lemma Reinterpret(x: nat)
    requires x < U32
    ensures IsI32(AsI32(x)) && AsU32(AsI32(x)) == x
  {
  }

  /**
   The kernel reads back the very target that was asked for; no target reads as
   "not a direct request", and no two targets share an encoding.
   */
  lemma RawRoundTrip(t: Target)
    requires t.Valid()
    ensures IsI32(t.Raw()) && t.Raw() != 0
    ensures KernelReads(t.Raw()) == (if t.Auto? then AllocateOne else InstallAt(t.slot))
  {
    Reinterpret(if t.Auto? then ALLOC else t.slot + 1);
  }

  lemma RawInjective(t: Target, u: Target)
    requires t.Valid() && u.Valid() && t.Raw() == u.Raw()
    ensures t == u
  {
    RawRoundTrip(t);
    RawRoundTrip(u);
  }

  /** Every wire value other than zero is some target's encoding, so the bound is tight. */
  lemma RawSurjective(raw: int) returns (t: Target)
    requires IsI32(raw) && raw != 0
    ensures t.Valid() && t.Raw() == raw
  {
    var x := AsU32(raw);
    t := if x == ALLOC then Auto else Exact(x - 1);
  }

  /** `SlotIndex::new` takes exactly the indexes whose encoding is free of the kernel's two reserved values. */
  lemma SlotIndexIff(index: nat)
    requires index < U32
    ensures SlotIndex(index) == (if (index + 1) % U32 == 0 || (index + 1) % U32 == ALLOC then None else Some(index))
    ensures ALLOC == 0xFFFF_FFFF
  {
  }

  /** `PendingDirectSocket::redeem`, once the receipt has matched. */
  function RedeemedSlot(t: Target, result: int): Option<nat> {
    if result < 0 then None else t.Resolve(result)
  }

  /** The slot a successful redeem names is the table index where the kernel put the file. */
  lemma RedeemNamesTheSlot(t: Target, o: Installed)
    requires t.Valid() && KernelMayInstall(KernelReads(t.Raw()), o)
    ensures RedeemedSlot(t, o.result) == Some(o.slot)
  {
    RawRoundTrip(t);
  }

  /** No failed request yields a slot, whichever target it had. */
  lemma FailureNamesNoSlot(t: Target, result: int)
    requires IsI32(result)
    ensures RedeemedSlot(t, result).None? <==> result < 0
  {
    if result >= 0 {
      assert AsU32(result) == result;
    }
  }
}

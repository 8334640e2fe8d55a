/**
 The staged layout of a message request, for any type sizes and alignments.

 A header, an array of descriptors and one address slot are laid back to back
 in a single caller allocation. `stage` checks the base address against the
 header's alignment only, and everything else about placement has to follow.
 */
module Layout {
  import opened Arithmetic

  /** Sizes and alignments of `MsgHdr`, `IoVec` and `SockAddrIn` on some target. */
  datatype Layout = Layout(
    hdrSize: nat, hdrAlign: nat,
    vecSize: nat, vecAlign: nat,
    nameSize: nat, nameAlign: nat)
  {
    predicate Valid() {
      hdrAlign > 0 && vecAlign > 0 && nameAlign > 0
    }

    function NameOffset(count: nat): nat { hdrSize + vecSize * count }

    function BytesFor(count: nat): nat { NameOffset(count) + nameSize }
  }

  /** 64-bit targets: seven pointer widths of header, two per descriptor. */
  const LP64 := Layout(56, 8, 16, 8, 16, 4)

  /** 32-bit targets. */
  const ILP32 := Layout(28, 4, 8, 4, 16, 4)

  /** Most descriptors the kernel accepts, `UIO_MAXIOV`. */
  const MAX_IOV := 1024

  datatype StageError =
    | TooManyDescriptors(got: nat, max: nat)
    | RegionTooSmall(needed: nat, avail: nat)
    | RegionMisaligned(align: nat)

  datatype Placement = Placed(hdr: nat, vecs: nat, name: nat) | Refused(error: StageError)

  /** `MsgRegion::stage`: where the three parts go, or why they cannot. */
  function Place(l: Layout, base: nat, len: nat, count: nat): Placement
    requires l.Valid()
  {
    if count > MAX_IOV then Refused(TooManyDescriptors(count, MAX_IOV))
    else if len < l.BytesFor(count) then Refused(RegionTooSmall(l.BytesFor(count), len))
    else if base % l.hdrAlign != 0 then Refused(RegionMisaligned(l.hdrAlign))
    else Placed(base, base + l.hdrSize, base + l.NameOffset(count))
  }

  /** Header first, then each descriptor in turn, then the address slot, all inside. */
  ghost predicate InOrder(l: Layout, base: nat, len: nat, count: nat, p: Placement)
    requires p.Placed?
  {
    && base <= p.hdr && p.hdr + l.hdrSize <= p.vecs
    && p.name + l.nameSize <= base + len
    && (forall i: nat {:trigger l.vecSize * i} :: i < count ==> p.vecs + l.vecSize * i + l.vecSize <= p.name)
    && (forall i: nat, j: nat {:trigger l.vecSize * i, l.vecSize * j} :: i < j < count ==>
          p.vecs + l.vecSize * i + l.vecSize <= p.vecs + l.vecSize * j)
  }

  /**
   Every accepted store holds the header, each descriptor and the address slot
   in pairwise disjoint ranges, and refusal happens exactly for the three
   stated reasons.
   */
  lemma PlacementSound(l: Layout, base: nat, len: nat, count: nat)
    requires l.Valid()
    ensures var p := Place(l, base, len, count);
            && (p.Placed? <==> count <= MAX_IOV && l.BytesFor(count) <= len && base % l.hdrAlign == 0)
            && (p.Placed? ==> InOrder(l, base, len, count, p))
  {
    forall i: nat {:trigger l.vecSize * i} | i < count
      ensures l.vecSize * i + l.vecSize <= l.vecSize * count
    {
      MulStep(l.vecSize, i, count);
    }
    forall i: nat, j: nat {:trigger l.vecSize * i, l.vecSize * j} | i < j < count
      ensures l.vecSize * i + l.vecSize <= l.vecSize * j
    {
      MulStep(l.vecSize, i, j);
    }
  }

  /**
   A refusal says what is wrong: how many descriptors are too many; which length is too
   short and the least that would do; or the alignment the base lacks, when nothing else
   is wrong.
   */
  lemma RefusalSays(l: Layout, base: nat, len: nat, count: nat)
    requires l.Valid() && Place(l, base, len, count).Refused?
    ensures match Place(l, base, len, count).error
            case TooManyDescriptors(got, max) => got == count > max == 1024
            case RegionTooSmall(needed, avail) =>
              && avail == len < needed && count <= 1024
              && forall n: nat :: n >= needed <==> !(Place(l, base, n, count).Refused? && Place(l, base, n, count).error.RegionTooSmall?)
            case RegionMisaligned(align) =>
              align == l.hdrAlign && base % align != 0 && count <= 1024 && len >= l.BytesFor(count)
  {
  }

  // ----- alignment -----

  /** What checking only the base would need of the sizes and alignments. */
  predicate Compatible(l: Layout)
    requires l.Valid()
  {
    && l.hdrAlign % l.vecAlign == 0 && l.hdrSize % l.vecAlign == 0 && l.vecSize % l.vecAlign == 0
    && l.hdrAlign % l.nameAlign == 0 && l.hdrSize % l.nameAlign == 0 && l.vecSize % l.nameAlign == 0
  }

  /** The header, descriptor `i` if there is one, and the address slot of a placement are aligned. */
  predicate Aligned(l: Layout, p: Placement, count: nat, i: nat)
    requires l.Valid() && p.Placed?
  {
    && p.hdr % l.hdrAlign == 0 && (i < count ==> (p.vecs + l.vecSize * i) % l.vecAlign == 0)
    && p.name % l.nameAlign == 0
  }

  /** Every part of every accepted placement is aligned. */
  ghost predicate AlwaysAligned(l: Layout)
    requires l.Valid()
  {
    forall base: nat, len: nat, count: nat, i: nat ::
      Place(l, base, len, count).Placed? ==> Aligned(l, Place(l, base, len, count), count, i)
  }

  /** The parts start where the storage does, with nothing between them. */
  lemma PlacedAtBase(l: Layout, base: nat, len: nat, count: nat)
    requires l.Valid() && Place(l, base, len, count).Placed?
    ensures var p := Place(l, base, len, count);
            p.hdr == base && p.vecs == p.hdr + l.hdrSize && p.name == p.vecs + l.vecSize * count
  {
  }

  /** Base, header and array offsets combined modulo one alignment. */
  lemma OffsetMod(base: nat, baseAlign: nat, hdr: nat, vec: nat, k: nat, d: nat)
    requires d > 0 && baseAlign > 0 && base % baseAlign == 0
    requires baseAlign % d == 0 && hdr % d == 0 && vec % d == 0
    ensures (base + hdr + vec * k) % d == 0
  {
    MultipleMod(base, baseAlign, d);
    ScaleMod(vec, k, d);
    SumMod(base, hdr + vec * k, d);
    SumMod(hdr, vec * k, d);
  }

  /**
   Checking the base address alone is enough for every count and every store
   exactly when the sizes and alignments are `Compatible`.
   */
  lemma BaseCheckSuffices(l: Layout)
    requires l.Valid()
    ensures AlwaysAligned(l) <==> Compatible(l)
  {
    if Compatible(l) {
      forall base: nat, len: nat, count: nat, i: nat | Place(l, base, len, count).Placed?
        ensures Aligned(l, Place(l, base, len, count), count, i)
      {
        OffsetMod(base, l.hdrAlign, l.hdrSize, l.vecSize, i, l.vecAlign);
        OffsetMod(base, l.hdrAlign, l.hdrSize, l.vecSize, count, l.nameAlign);
      }
    }
    if AlwaysAligned(l) {
      NeededByAlignment(l);
    }
  }

  /** Storage that is accepted at this base, for this many descriptors. */
  lemma Accepts(l: Layout, base: nat, count: nat, i: nat)
    requires l.Valid() && AlwaysAligned(l) && base % l.hdrAlign == 0 && count <= MAX_IOV
    ensures i < count ==> (base + l.hdrSize + l.vecSize * i) % l.vecAlign == 0
    ensures (base + l.NameOffset(count)) % l.nameAlign == 0
  {
    var p := Place(l, base, l.BytesFor(count), count);
    assert p.Placed? && Aligned(l, p, count, i);
  }

  lemma NeededByAlignment(l: Layout)
    requires l.Valid() && AlwaysAligned(l)
    ensures Compatible(l)
  {
    ModUnique(l.hdrAlign, l.hdrAlign, 1, 0);
    Accepts(l, 0, 0, 0);
    Accepts(l, 0, 1, 0);
    Accepts(l, 0, 2, 1);
    Accepts(l, l.hdrAlign, 0, 0);
    Accepts(l, l.hdrAlign, 1, 0);
    SumMod(l.hdrSize, l.hdrAlign, l.vecAlign);
    SumMod(l.hdrSize, l.hdrAlign, l.nameAlign);
    SumMod(l.hdrSize, l.vecSize, l.vecAlign);
    SumMod(l.hdrSize, l.vecSize, l.nameAlign);
  }

  /** Both supported targets meet the condition. */
  lemma SupportedTargets()
    ensures LP64.Valid() && AlwaysAligned(LP64)
    ensures ILP32.Valid() && AlwaysAligned(ILP32)
  {
    BaseCheckSuffices(LP64);
    BaseCheckSuffices(ILP32);
  }
}

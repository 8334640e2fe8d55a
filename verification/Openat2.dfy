/**
 The parameters an `openat2` request stages: flags and creation mode are paired, and
 travel to the kernel in an `OpenHow`.
 */
module Openat2 {
  import opened Arithmetic
  import opened Bytes
  import MsgRegion
  import Request

  const CREAT: bv32 := 0x40
  const EXCL: bv32 := 0x80
  const TMPFILE: bv32 := 0x41_0000

  /** Permission bits, `0o7777`. */
  const MODE_BITS: bv32 := 0xFFF

  datatype Mode = Existing | Create(mode: bv32) | CreateNew(mode: bv32) | Tmpfile(mode: bv32)
  {
    /** `Openat2Mode::flags` */
    function Flags(): bv32 {
      match this
      case Existing => 0
      case Create(_) => CREAT
      case CreateNew(_) => CREAT | EXCL
      case Tmpfile(_) => TMPFILE
    }

    /** `Openat2Mode::mode` */
    function Bits(): bv32 { if Existing? then 0 else mode }
  }

  datatype How = How(flags: bv32, mode: bv32, resolve: nat)

  datatype AtResult = Staged(how: How) | StrayBits(stray: bv32) | TooSmall(needed: nat, got: nat) | Misaligned(needed: nat)

  /** `PreparedOpenat2::at`: the mode's bits are looked at first, then the storage. */
  function At(flags: bv32, mode: Mode, resolve: nat, store: MsgRegion.Buf): AtResult {
    var stray := mode.Bits() & !MODE_BITS;
    if stray != 0 then StrayBits(stray)
    else if store.len < 24 then TooSmall(24, store.len)
    else if store.addr % 8 != 0 then Misaligned(8)
    else Staged(How(flags | mode.Flags(), mode.Bits(), resolve))
  }

  /** What the kernel asks of the mode: permission bits only, and none unless a file may be created. */
  predicate KernelAccepts(h: How) {
    h.mode & !0xFFF == 0 && (h.mode != 0 ==> h.flags & 0x41_0040 != 0)
  }

  lemma OrHasFirst(a: bv32, b: bv32)
    ensures (a | b) & a == a
  {
  }

  lemma OrHasSecond(a: bv32, b: bv32)
    ensures (a | b) & b == b
  {
  }

  lemma NoneOutside(x: bv32)
    ensures x & !x == 0
  {
  }

  /** `x` is made of these bits: all of `a`, all of `b`, nothing else. */
  predicate MadeOf(x: bv32, a: bv32, b: bv32) { x & a == a && x & b == b && x & !(a | b) == 0 }

  lemma UnionIsMade(a: bv32, b: bv32)
    ensures MadeOf(a | b, a, b)
  {
    OrHasFirst(a, b);
    OrHasSecond(a, b);
    NoneOutside(a | b);
  }

  /** Every mode but opening an existing file sets the bit the kernel looks for, and its own bits. */
  lemma ImpliedBits(flags: bv32)
    ensures (flags | CREAT) & CREAT != 0 && (flags | CREAT) & (CREAT | TMPFILE) != 0
    ensures (flags | (CREAT | EXCL)) & CREAT != 0 && (flags | (CREAT | EXCL)) & EXCL != 0
    ensures (flags | (CREAT | EXCL)) & (CREAT | TMPFILE) != 0
    ensures (flags | TMPFILE) & TMPFILE == TMPFILE && (flags | TMPFILE) & (CREAT | TMPFILE) != 0
  {
  }

  /** The caller's own flags and the bits the mode implies are all there, and no others; so are the mode's bits. */
  ghost predicate Carries(h: How, flags: bv32, mode: Mode, resolve: nat) {
    && MadeOf(h.flags, flags, mode.Flags())
    && h.mode == (if mode.Existing? then 0 else mode.mode) && h.resolve == resolve
  }

  /** What each way of opening asks for. */
  ghost predicate AsNamed(h: How, mode: Mode) {
    match mode
    case Existing => true
    case Create(_) => h.flags & 0x40 != 0
    case CreateNew(_) => h.flags & 0x40 != 0 && h.flags & 0x80 != 0
    case Tmpfile(_) => h.flags & 0x41_0000 == 0x41_0000
  }

  lemma NamedAndAccepted(h: How, flags: bv32, mode: Mode)
    requires h.flags == flags | mode.Flags() && h.mode == mode.Bits() && mode.Bits() & !MODE_BITS == 0
    ensures KernelAccepts(h) && AsNamed(h, mode)
  {
    ImpliedBits(flags);
  }

  lemma AllCarried(h: How, flags: bv32, mode: Mode)
    requires h.flags == flags | mode.Flags() && h.mode == mode.Bits()
    ensures Carries(h, flags, mode, h.resolve)
  {
    UnionIsMade(flags, mode.Flags());
  }

  /** Whatever is staged, the kernel never refuses for its mode: the combination it rejects cannot be written. */
  lemma StagedIsAccepted(flags: bv32, mode: Mode, resolve: nat, store: MsgRegion.Buf)
    ensures At(flags, mode, resolve, store).Staged? ==>
      var h := At(flags, mode, resolve, store).how;
      KernelAccepts(h) && Carries(h, flags, mode, resolve) && AsNamed(h, mode)
  {
    var r := At(flags, mode, resolve, store);
    if r.Staged? {
      NamedAndAccepted(r.how, flags, mode);
      AllCarried(r.how, flags, mode);
    }
  }

  /** A mode with other bits is refused, naming exactly those bits; otherwise the storage decides. */
  lemma RefusalSays(flags: bv32, mode: Mode, resolve: nat, store: MsgRegion.Buf)
    ensures var r := At(flags, mode, resolve, store);
            && (r.StrayBits? <==> mode.Bits() & !MODE_BITS != 0)
            && (r.StrayBits? ==> r.stray == mode.Bits() & !MODE_BITS)
            && (r.TooSmall? ==> r.needed == 24 && r.got == store.len < 24)
            && (r.Misaligned? ==> r.needed == 8 && store.addr % 8 != 0)
            && (r.Staged? <==> mode.Bits() & !MODE_BITS == 0 && store.len >= 24 && store.addr % 8 == 0)
  {
  }

  /** `OpenHow` as it lies in memory: three words. */
  function HowBytes(flags: nat, mode: nat, resolve: nat): (s: seq<Byte>)
    ensures |s| == 24
  {
    Le(flags, 8) + Le(mode, 8) + Le(resolve, 8)
  }

  /** The three words as the kernel reads them. */
  function HowAt(m: Mem, a: nat): (nat, nat, nat) { (Word(m, a), Word(m, a + 8), Word(m, a + 16)) }

  lemma Pieces(a: seq<Byte>, b: seq<Byte>, c: seq<Byte>)
    requires |a| == |b| == |c| == 8
    ensures (a + b + c)[0..8] == a && (a + b + c)[8..16] == b && (a + b + c)[16..24] == c
  {
  }

  /** `publish_how` */
  method PublishHow(mem: array<Byte>, a: nat, h: How)
    requires a + 24 <= mem.Length
    modifies mem
    ensures mem[..] == Store(old(mem[..]), a, HowBytes(h.flags as nat, h.mode as nat, h.resolve))
  {
    MsgRegion.StoreBytes(mem, a, HowBytes(h.flags as nat, h.mode as nat, h.resolve));
  }

  lemma WordReadsBack(m: Mem, a: nat, b: seq<Byte>, off: nat, v: nat, later: Mem)
    requires a + |b| <= |m| && off + 8 <= |b| && b[off..off + 8] == Le(v, 8) && v < U64
    requires SameOn(Store(m, a, b), later, a, |b|)
    ensures Word(later, a + off) == v
  {
    LoadStored(m, a, b, off, 8);
    LoadSame(Store(m, a, b), later, a + off, 8);
    MsgRegion.PowerFacts();
    UnleLe(v, 8);
  }

  /** The kernel reads the very flags, mode and resolve bits that were staged, whatever happens elsewhere. */
  lemma HowReadsBack(m: Mem, a: nat, flags: nat, mode: nat, resolve: nat, later: Mem)
    requires a + 24 <= |m| && flags < U64 && mode < U64 && resolve < U64
    requires SameOn(Store(m, a, HowBytes(flags, mode, resolve)), later, a, 24)
    ensures HowAt(later, a) == (flags, mode, resolve)
  {
    var b := HowBytes(flags, mode, resolve);
    Pieces(Le(flags, 8), Le(mode, 8), Le(resolve, 8));
    WordReadsBack(m, a, b, 0, flags, later);
    WordReadsBack(m, a, b, 8, mode, later);
    WordReadsBack(m, a, b, 16, resolve, later);
  }

  /** The size the SQE gives the kernel is that of what was staged. */
  lemma HowSizeIsStaged(flags: nat, mode: nat, resolve: nat)
    ensures |HowBytes(flags, mode, resolve)| == Request.HOW
  {
  }
}

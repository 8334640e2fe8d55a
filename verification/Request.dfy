/**
 Owned requests: what each kind carries, the SQE it builds, and how a push that
 the queue refuses is undone.
 */
module Request {
  import opened Bytes
  import opened MsgRegion
  import opened Footprint
  import opened Completion
  import opened Paths
  import FilesUpdate

  const MAX_U32: nat := 0xFFFF_FFFF

  /** Size and alignment of `EpollEvent`, which is packed on x86-64 only. */
  datatype Abi = Packed | Natural
  {
    function EventSize(): nat { if Packed? then 12 else 16 }

    function EventAlign(): (a: nat)
      ensures a > 0
    {
      if Packed? then 1 else 8
    }
  }

  /** `size_of::<OpenHow>()` */
  const HOW: nat := 24

  datatype Direction = Read | Write

  datatype MsgOp = Send | SendZc | Receive

  datatype AddrOp = Connect | Bind

  /** A request that owns its storage and has not been queued. */
  datatype Prepared =
    | Transfer(buf: Buf, fd: int, offset: nat, len: nat, direction: Direction, addr: nat)
    | ZeroCopy(buf: Buf, fd: int, len: nat, flags: nat, addr: nat)
    | Message(op: MsgOp, bufs: seq<Buf>, region: Region, fd: int, flags: nat, named: bool)
    | Named(verb: AddrOp, store: Buf, fd: int, name: SockAddrIn, staged: nat)
    | Update(store: Buf, entries: seq<FilesUpdate.TableEntry>, slot: nat, entriesAt: nat)
    | Open(path: OwnedPath, how: Buf, dir: int, flags: nat, mode: nat, resolve: nat, pathAddr: nat, howAddr: nat)
    | Wait(store: Buf, epfd: int, maxEvents: nat, events: nat, abi: Abi)
    | Multishot(fd: int, group: nat, flags: nat)
  {
    /** What the constructors establish. */
    predicate Valid(m: Mem) {
      match this
      case Transfer(buf, _, _, len, _, addr) => addr == buf.addr && len <= buf.len
      case ZeroCopy(buf, _, len, _, addr) => addr == buf.addr && len <= buf.len
      case Message(op, bufs, region, _, _, named) => Msg(bufs, region, op.Receive?, named).Ok(m)
      case Named(_, store, _, _, staged) => staged == store.addr && 16 <= store.len
      case Update(store, entries, _, a) => a == store.addr && 4 * |entries| <= store.len
      case Open(path, how, _, _, _, _, pathAddr, howAddr) =>
        path.store != how && path.Valid(m) && pathAddr == path.store.addr && howAddr == how.addr && HOW <= how.len
      case Wait(store, _, max, events, abi) => events == store.addr && abi.EventSize() * max <= store.len
      case Multishot(_, _, _) => true
    }

    /** The storage the request owns and the parts of it the kernel is to use. */
    function Memory(): Req {
      match this
      case Transfer(buf, _, _, len, direction, addr) => Flat([Span(buf, addr, len, direction.Read?)])
      case ZeroCopy(buf, _, len, _, addr) => Flat([Span(buf, addr, len, false)])
      case Message(op, bufs, region, _, _, named) => Msg(bufs, region, op.Receive?, named)
      case Named(_, store, _, _, staged) => Flat([Span(store, staged, 16, false)])
      case Update(store, entries, _, a) => Flat([Span(store, a, 4 * FilesUpdate.SlotCount(entries), false)])
      case Open(path, how, _, _, _, _, pathAddr, howAddr) =>
        ByPath([path], [Span(how, howAddr, HOW, false)])
      case Wait(store, _, max, events, abi) => Flat([Span(store, events, abi.EventSize() * max, true)])
      case Multishot(_, group, _) => Provided(group)
    }
  }

  // ----- constructors -----

  /** `clamp_len` */
  function ClampLen(len: nat): nat { if len > MAX_U32 then MAX_U32 else len }

  /** `Prepared::read` and `Prepared::write` */
  function NewTransfer(fd: int, buf: Buf, offset: nat, direction: Direction): (p: Prepared)
    ensures forall m :: p.Valid(m)
    ensures MeansTransfer(p, direction, fd, offset, buf.addr, Min(buf.len, MAX_U32))
  {
    Transfer(buf, fd, offset, ClampLen(buf.len), direction, buf.addr)
  }

  /** `PreparedZc::send` */
  function NewZeroCopy(fd: int, buf: Buf, flags: nat): (p: Prepared)
    ensures forall m :: p.Valid(m)
    ensures MeantBy(p) == SendFrom(fd, buf.addr, Min(buf.len, MAX_U32), flags)
  {
    ZeroCopy(buf, fd, ClampLen(buf.len), flags, buf.addr)
  }

  /** The requests that have a length to set. */
  predicate Sized(p: Prepared) { p.Transfer? || p.ZeroCopy? }

  /** The same request with another length. */
  function Resized(p: Prepared, len: nat): (q: Prepared)
    requires Sized(p)
    ensures Sized(q) && q.len == len && q.buf == p.buf
    ensures p.Transfer? ==> MeansTransfer(q, p.direction, p.fd, p.offset, p.addr, len)
    ensures p.ZeroCopy? ==> MeantBy(q) == SendFrom(p.fd, p.addr, len, p.flags)
  {
    match p
    case Transfer(buf, fd, offset, _, direction, addr) => Transfer(buf, fd, offset, len, direction, addr)
    case ZeroCopy(buf, fd, _, flags, addr) => ZeroCopy(buf, fd, len, flags, addr)
  }

  /** `with_len` */
  function WithLen(p: Prepared, len: nat): (q: Prepared)
    requires Sized(p)
    ensures Sized(q) && q.buf == p.buf
    ensures forall m :: p.Valid(m) ==> q.Valid(m)
  {
    if len < p.len then Resized(p, len) else p
  }

  function WithLens(p: Prepared, lens: seq<nat>): (q: Prepared)
    requires Sized(p)
    ensures Sized(q)
  {
    if lens == [] then p else WithLen(WithLens(p, lens[..|lens| - 1]), lens[|lens| - 1])
  }

  function Least(cap: nat, lens: seq<nat>): nat {
    if lens == [] then cap else Min(lens[|lens| - 1], Least(cap, lens[..|lens| - 1]))
  }

  /** Any sequence of calls leaves the smallest length ever asked for. */
  lemma {:induction false} WithLensLeast(p: Prepared, lens: seq<nat>)
    requires Sized(p)
    ensures WithLens(p, lens) == Resized(p, Least(p.len, lens))
  {
    if lens != [] {
      WithLensLeast(p, lens[..|lens| - 1]);
    }
  }

  lemma {:induction false} LeastBound(cap: nat, lens: seq<nat>, n: nat)
    ensures Least(cap, lens) >= n <==> cap >= n && forall i :: 0 <= i < |lens| ==> lens[i] >= n
  {
    if lens != [] {
      var k := |lens| - 1;
      LeastBound(cap, lens[..k], n);
      assert forall i :: 0 <= i < k ==> lens[..k][i] == lens[i];
    }
  }

  lemma {:induction false} LeastAtMost(cap: nat, lens: seq<nat>)
    ensures Least(cap, lens) <= cap
  {
    if lens != [] {
      LeastAtMost(cap, lens[..|lens| - 1]);
    }
  }

  /**
   `with_len(n)` is described as transferring `n` bytes clamped to the capacity. It
   does exactly when no earlier call asked for less than that.
   */
  lemma WithLenClampsIff(p: Prepared, lens: seq<nat>, n: nat)
    requires Sized(p)
    ensures WithLens(p, lens + [n]).len == Min(n, p.len)
       <==> forall i :: 0 <= i < |lens| ==> lens[i] >= Min(n, p.len)
  {
    assert (lens + [n])[..|lens|] == lens;
    WithLensLeast(p, lens + [n]);
    assert WithLens(p, lens + [n]).len == Min(n, Least(p.len, lens));
    LeastBound(p.len, lens, Min(n, p.len));
    LeastAtMost(p.len, lens);
  }

  /** Shorten to three bytes, then ask for five: three are transferred. */
  lemma WithLenNeverGrows(buf: Buf)
    requires buf.len == 64
    ensures WithLens(NewTransfer(0, buf, 0, Write), [3, 5]).len == 3
  {
    WithLensLeast(NewTransfer(0, buf, 0, Write), [3, 5]);
    assert [3, 5][..1] == [3];
    assert Least(64, [3]) == 3;
  }

  datatype WaitResult = WaitReady(request: Prepared) | TooSmall(needed: nat, got: nat) | BadAlignment(needed: nat)

  /** `PreparedEpollWait::new` */
  function NewWait(abi: Abi, epfd: int, store: Buf): (r: WaitResult)
    ensures r.WaitReady? <==> store.len >= abi.EventSize() && store.addr % abi.EventAlign() == 0
    ensures r.WaitReady? ==> r.request.Wait? && r.request.abi == abi && forall m :: r.request.Valid(m)
    ensures r.WaitReady? ==>
      && r.request.maxEvents <= MAX_U32
      && (r.request.maxEvents == MAX_U32 || store.len < abi.EventSize() * (r.request.maxEvents + 1))
    ensures r.TooSmall? ==> r.got == store.len < r.needed == abi.EventSize()
    ensures r.BadAlignment? ==> r.needed == abi.EventAlign() && store.addr % abi.EventAlign() != 0
  {
    var size := abi.EventSize();
    if store.len < size then TooSmall(size, store.len)
    else if store.addr % abi.EventAlign() != 0 then BadAlignment(abi.EventAlign())
    else
      var max := ClampLen(store.len / size);
      assert size * (store.len / size) <= store.len < size * (store.len / size + 1);
      WaitReady(Wait(store, epfd, max, store.addr, abi))
  }

  // ----- single staged values -----

  datatype StageResult = StagedAt(addr: nat) | ValueTooSmall(needed: nat, got: nat) | Misaligned(needed: nat)

  /** `ValuePrepared::new`'s checks; `StagedPrepared::new` is the case of alignment 1. */
  function StageValue(store: Buf, size: nat, align: nat): StageResult
    requires align > 0
  {
    if store.len < size then ValueTooSmall(size, store.len)
    else if store.addr % align != 0 then Misaligned(align)
    else StagedAt(store.addr)
  }

  /** Accepted exactly for storage that is long enough and aligned; a refusal names what is missing. */
  lemma StageSays(store: Buf, size: nat, align: nat)
    requires align > 0
    ensures var r := StageValue(store, size, align);
            && (r.StagedAt? <==> size <= store.len && store.addr % align == 0)
            && (r.ValueTooSmall? <==> store.len < size)
            && (r.ValueTooSmall? ==> r.needed == size && r.got == store.len)
            && (r.Misaligned? ==> r.needed == align && store.addr % align != 0)
  {
  }

  /** `publish`: the value's bytes, at the start of the storage. */
  method PublishValue(mem: array<Byte>, store: Buf, value: seq<Byte>, align: nat) returns (r: StageResult)
    requires align > 0 && Inside(mem[..], store)
    modifies mem
    ensures r == StageValue(store, |value|, align)
    ensures mem[..] == if r.StagedAt? then Store(old(mem[..]), r.addr, value) else old(mem[..])
  {
    r := StageValue(store, |value|, align);
    if r.StagedAt? {
      StoreBytes(mem, r.addr, value);
    }
  }

  /**
   Whatever else happens to memory while the ticket owns the storage, the kernel reads
   the very value that was published, and an accepted address is one it may dereference.
   */
  lemma StagedReadsBack(m: Mem, store: Buf, value: seq<Byte>, align: nat, later: Mem)
    requires align > 0 && Inside(m, store)
    ensures var r := StageValue(store, |value|, align);
            r.StagedAt? ==>
              && r.addr % align == 0 && store.addr <= r.addr && r.addr + |value| <= store.addr + store.len
              && (SameOn(Store(m, r.addr, value), later, store.addr, store.len) ==>
                    Load(later, r.addr, |value|) == value)
  {
    if StageValue(store, |value|, align).StagedAt? {
      LoadStored(m, store.addr, value, 0, |value|);
      if SameOn(Store(m, store.addr, value), later, store.addr, store.len) {
        LoadSame(Store(m, store.addr, value), later, store.addr, |value|);
      }
    }
  }

  /**
   `bind` and `connect` stage `to_bytes`: whatever happens elsewhere, the kernel reads
   the family, port and address that were named, over zero padding. It reads the very
   address exactly when that had zero padding.
   */
  lemma AddressReadsBack(m: Mem, store: Buf, name: SockAddrIn, later: Mem)
    requires Inside(m, store) && 16 <= store.len && name.Fits()
    requires SameOn(Store(m, store.addr, ToBytes(name)), later, store.addr, store.len)
    ensures Load(later, store.addr, 16) == ToBytes(name)
    ensures var seen := AddrOf(Load(later, store.addr, 16));
            && seen.family == name.family && seen.port == name.port && seen.addr == name.addr
            && (seen == name <==> name.zero == Zeros(8))
  {
    StagedReadsBack(m, store, ToBytes(name), 1, later);
    ToBytesKeepsIff(name);
  }

  // ----- the SQE -----

  datatype Opcode =
    | OpRead | OpWrite | OpSendZc | OpSendMsg | OpSendmsgZc | OpRecvMsg
    | OpConnect | OpBind | OpFilesUpdate | OpOpenat2 | OpEpollWait | OpRecv

  datatype Entry = Entry(op: Opcode, fd: int, off: nat, addr: nat, len: nat, flags: nat, group: nat, userData: nat)

  /** `into_pending`'s SQE. */
  function SqeOf(p: Prepared, id: nat): Entry {
    match p
    case Transfer(_, fd, offset, len, direction, addr) =>
      Entry(if direction.Read? then OpRead else OpWrite, fd, offset, addr, len, 0, 0, id)
    case ZeroCopy(_, fd, len, flags, addr) => Entry(OpSendZc, fd, 0, addr, len, flags, 0, id)
    case Message(op, _, region, fd, flags, _) =>
      Entry(match op { case Send => OpSendMsg case SendZc => OpSendmsgZc case Receive => OpRecvMsg },
            fd, 0, region.hdr, 1, flags, 0, id)
    case Named(op, _, fd, _, staged) => Entry(if op.Connect? then OpConnect else OpBind, fd, 16, staged, 0, 0, 0, id)
    case Update(_, entries, slot, a) => Entry(OpFilesUpdate, 0, slot, a, FilesUpdate.SlotCount(entries), 0, 0, id)
    case Open(_, _, dir, _, _, _, pathAddr, howAddr) => Entry(OpOpenat2, dir, howAddr, pathAddr, HOW, 0, 0, id)
    case Wait(_, epfd, max, events, _) => Entry(OpEpollWait, epfd, 0, events, max, 0, 0, id)
    case Multishot(fd, group, flags) => Entry(OpRecv, fd, 0, 0, 0, flags, group, id)
  }

  /** What a kernel takes an entry to ask for: every operand that operation reads, and no other. */
  datatype Operation =
    | ReadInto(fd: int, offset: nat, addr: nat, len: nat)
    | WriteFrom(fd: int, offset: nat, addr: nat, len: nat)
    | SendFrom(fd: int, addr: nat, len: nat, flags: nat)
    | SendMessage(fd: int, hdr: nat, flags: nat, zeroCopy: bool)
    | ReceiveMessage(fd: int, hdr: nat, flags: nat)
    | ConnectTo(fd: int, addr: nat, len: nat)
    | BindTo(fd: int, addr: nat, len: nat)
    | UpdateFiles(addr: nat, count: nat, slot: nat)
    | OpenPath(dir: int, path: nat, how: nat, howSize: nat)
    | WaitEvents(epfd: int, addr: nat, max: nat)
    | ReceiveMany(fd: int, group: nat, flags: nat)

  function AsksFor(e: Entry): Operation {
    match e.op
    case OpRead => ReadInto(e.fd, e.off, e.addr, e.len)
    case OpWrite => WriteFrom(e.fd, e.off, e.addr, e.len)
    case OpSendZc => SendFrom(e.fd, e.addr, e.len, e.flags)
    case OpSendMsg => SendMessage(e.fd, e.addr, e.flags, false)
    case OpSendmsgZc => SendMessage(e.fd, e.addr, e.flags, true)
    case OpRecvMsg => ReceiveMessage(e.fd, e.addr, e.flags)
    case OpConnect => ConnectTo(e.fd, e.addr, e.off)
    case OpBind => BindTo(e.fd, e.addr, e.off)
    case OpFilesUpdate => UpdateFiles(e.addr, e.len, e.off)
    case OpOpenat2 => OpenPath(e.fd, e.addr, e.off, e.len)
    case OpEpollWait => WaitEvents(e.fd, e.addr, e.len)
    case OpRecv => ReceiveMany(e.fd, e.group, e.flags)
  }

  predicate MeansTransfer(p: Prepared, direction: Direction, fd: int, offset: nat, addr: nat, len: nat) {
    p.Transfer? && p.direction == direction && p.fd == fd && p.offset == offset && p.addr == addr && p.len == len
  }

  /** What the caller prepared. */
  function MeantBy(p: Prepared): Operation {
    match p
    case Transfer(_, fd, offset, len, Read, addr) => ReadInto(fd, offset, addr, len)
    case Transfer(_, fd, offset, len, Write, addr) => WriteFrom(fd, offset, addr, len)
    case ZeroCopy(_, fd, len, flags, addr) => SendFrom(fd, addr, len, flags)
    case Message(Receive, _, region, fd, flags, _) => ReceiveMessage(fd, region.hdr, flags)
    case Message(op, _, region, fd, flags, _) => SendMessage(fd, region.hdr, flags, op.SendZc?)
    case Named(Connect, _, fd, _, staged) => ConnectTo(fd, staged, 16)
    case Named(Bind, _, fd, _, staged) => BindTo(fd, staged, 16)
    case Update(_, entries, slot, a) => UpdateFiles(a, FilesUpdate.SlotCount(entries), slot)
    case Open(_, _, dir, _, _, _, pathAddr, howAddr) => OpenPath(dir, pathAddr, howAddr, HOW)
    case Wait(_, epfd, max, events, _) => WaitEvents(epfd, events, max)
    case Multishot(fd, group, flags) => ReceiveMany(fd, group, flags)
  }

  /** The entry asks the kernel for the operation that was prepared, with its file, offset, length and flags. */
  lemma EntryMeans(p: Prepared, id: nat)
    ensures AsksFor(SqeOf(p, id)) == MeantBy(p) && SqeOf(p, id).userData == id
  {
  }

  /** Where an opcode makes the kernel go, given only the SQE. */
  function KernelTarget(abi: Abi, e: Entry): Target {
    match e.op
    case OpRead => Ranges([Range(e.addr, e.len, true)])
    case OpWrite => Ranges([Range(e.addr, e.len, false)])
    case OpSendZc => Ranges([Range(e.addr, e.len, false)])
    case OpSendMsg => Header(e.addr, false)
    case OpSendmsgZc => Header(e.addr, false)
    case OpRecvMsg => Header(e.addr, true)
    case OpConnect => Ranges([Range(e.addr, e.off, false)])
    case OpBind => Ranges([Range(e.addr, e.off, false)])
    case OpFilesUpdate => Ranges([Range(e.addr, 4 * e.len, false)])
    case OpOpenat2 => Scans([e.addr], [Range(e.off, e.len, false)])
    case OpEpollWait => Ranges([Range(e.addr, abi.EventSize() * e.len, true)])
    case OpRecv => Group(e.group)
  }

  lemma OneSpan(buf: Buf, addr: nat, len: nat, write: bool)
    ensures RangesOf([Span(buf, addr, len, write)]) == [Range(addr, len, write)]
  {
  }

  /**
   For every kind of request, following its SQE leads the kernel to exactly the
   storage the request owns, and that storage satisfies what the protocol's safety
   argument needs of it.
   */
  lemma SqeReachesOwned(p: Prepared, id: nat, m: Mem, abi: Abi)
    requires p.Valid(m) && (p.Wait? ==> p.abi == abi)
    ensures KernelTarget(abi, SqeOf(p, id)) == TargetOf(p.Memory())
    ensures p.Memory().Ok(m)
  {
    match p
    case Transfer(buf, _, _, len, direction, addr) => OneSpan(buf, addr, len, direction.Read?);
    case ZeroCopy(buf, _, len, _, addr) => OneSpan(buf, addr, len, false);
    case Message(_, _, _, _, _, _) =>
    case Named(_, store, _, _, staged) => OneSpan(store, staged, 16, false);
    case Update(store, entries, _, a) => OneSpan(store, a, 4 * FilesUpdate.SlotCount(entries), false);
    case Open(path, how, _, _, _, _, _, howAddr) =>
      OneSpan(how, howAddr, HOW, false);
      assert TargetOf(p.Memory()).starts == [path.store.addr];
    case Wait(store, _, max, events, _) => OneSpan(store, events, abi.EventSize() * max, true);
    case Multishot(_, _, _) =>
  }

  // ----- tickets -----

  /** The fields a ticket keeps; a region travels as its raw parts. */
  datatype Kept =
    | KTransfer(buf: Buf, fd: int, offset: nat, len: nat, direction: Direction, addr: nat)
    | KZeroCopy(buf: Buf, fd: int, len: nat, flags: nat, addr: nat, sent: Option<int>)
    | KMessage(op: MsgOp, bufs: seq<Buf>, store: Buf, hdr: nat, vecs: nat, name: nat, count: nat,
               fd: int, flags: nat, named: bool, sent: Option<int>)
    | KNamed(verb: AddrOp, store: Buf, fd: int, peer: SockAddrIn, staged: nat)
    | KUpdate(store: Buf, entries: seq<FilesUpdate.TableEntry>, slot: nat, entriesAt: nat)
    | KOpen(path: OwnedPath, how: Buf, dir: int, flags: nat, mode: nat, resolve: nat, pathAddr: nat, howAddr: nat)
    | KWait(store: Buf, epfd: int, maxEvents: nat, events: nat, abi: Abi)
    | KMultishot(fd: int, group: nat)

  datatype Pending = Pending(ring: nat, id: nat, kept: Kept)

  /** `into_pending` */
  function IntoPending(p: Prepared, ring: nat, id: nat): (Entry, Pending) {
    var kept :=
      match p
      case Transfer(buf, fd, offset, len, direction, addr) => KTransfer(buf, fd, offset, len, direction, addr)
      case ZeroCopy(buf, fd, len, flags, addr) => KZeroCopy(buf, fd, len, flags, addr, None)
      case Message(op, bufs, Region(store, hdr, vecs, name, count), fd, flags, named) =>
        KMessage(op, bufs, store, hdr, vecs, name, count, fd, flags, named, None)
      case Named(op, store, fd, name, staged) => KNamed(op, store, fd, name, staged)
      case Update(store, entries, slot, a) => KUpdate(store, entries, slot, a)
      case Open(path, how, dir, flags, mode, resolve, pathAddr, howAddr) =>
        KOpen(path, how, dir, flags, mode, resolve, pathAddr, howAddr)
      case Wait(store, epfd, max, events, abi) => KWait(store, epfd, max, events, abi)
      case Multishot(fd, group, flags) => KMultishot(fd, group);
    (SqeOf(p, id), Pending(ring, id, kept))
  }

  /** `reclaim_unsubmitted`; a multishot ticket dropped its flags and cannot be turned back. */
  function Reclaim(t: Pending): Option<Prepared> {
    match t.kept
    case KTransfer(buf, fd, offset, len, direction, addr) => Some(Transfer(buf, fd, offset, len, direction, addr))
    case KZeroCopy(buf, fd, len, flags, addr, _) => Some(ZeroCopy(buf, fd, len, flags, addr))
    case KMessage(op, bufs, store, hdr, vecs, name, count, fd, flags, named, _) =>
      Some(Message(op, bufs, Region(store, hdr, vecs, name, count), fd, flags, named))
    case KNamed(op, store, fd, name, staged) => Some(Named(op, store, fd, name, staged))
    case KUpdate(store, entries, slot, a) => Some(Update(store, entries, slot, a))
    case KOpen(path, how, dir, flags, mode, resolve, pathAddr, howAddr) =>
      Some(Open(path, how, dir, flags, mode, resolve, pathAddr, howAddr))
    case KWait(store, epfd, max, events, abi) => Some(Wait(store, epfd, max, events, abi))
    case KMultishot(_, _) => None
  }

  /** What a refused push hands back: the reclaimed ticket, or the copy of a request that owns nothing. */
  function HandedBack(p: Prepared, t: Pending): Prepared {
    match Reclaim(t)
    case Some(q) => q
    case None => p
  }

  /** A refusal is undone exactly, for every kind. */
  lemma RefusalIsIdentity(p: Prepared, ring: nat, id: nat)
    ensures HandedBack(p, IntoPending(p, ring, id).1) == p
    ensures Reclaim(IntoPending(p, ring, id).1) == if p.Multishot? then None else Some(p)
  {
  }

  /** The request after being refused once per id in `ids`. */
  function Refused(p: Prepared, ring: nat, ids: seq<nat>): Prepared {
    if ids == [] then p else
      var q := Refused(p, ring, ids[..|ids| - 1]);
      HandedBack(q, IntoPending(q, ring, ids[|ids| - 1]).1)
  }

  /**
   However often it was refused, on whatever ids, a request is the same request, and
   a later push builds the SQE the first one would have, apart from `user_data`.
   */
  lemma {:induction false} RefusalsLeaveNoTrace(p: Prepared, ring: nat, ids: seq<nat>, first: nat, last: nat)
    ensures Refused(p, ring, ids) == p
    ensures IntoPending(Refused(p, ring, ids), ring, last).0
         == IntoPending(p, ring, first).0.(userData := last)
  {
    if ids != [] {
      RefusalsLeaveNoTrace(p, ring, ids[..|ids| - 1], first, last);
      RefusalIsIdentity(p, ring, ids[|ids| - 1]);
    }
  }

  /** The storage a ticket keeps from its owner. */
  function KeptMemory(t: Pending): Req {
    match Reclaim(t)
    case Some(p) => p.Memory()
    case None => Provided(if t.kept.KMultishot? then t.kept.group else 0)
  }

  lemma TicketKeepsMemory(p: Prepared, ring: nat, id: nat)
    ensures KeptMemory(IntoPending(p, ring, id).1) == p.Memory()
  {
  }

  /** Tickets that `record_sent` exists for. */
  predicate TakesNotices(t: Pending) { t.kept.KZeroCopy? || (t.kept.KMessage? && t.kept.op.SendZc?) }

  /** The recorded send result; tickets of other kinds have no such field. */
  function SentOf(t: Pending): Option<int> {
    match t.kept
    case KZeroCopy(_, _, _, _, _, sent) => sent
    case KMessage(_, _, _, _, _, _, _, _, _, _, sent) => sent
    case _ => None
  }

  function WithSent(t: Pending, result: int): Pending
    requires TakesNotices(t)
  {
    match t.kept
    case KZeroCopy(buf, fd, len, flags, addr, _) =>
      Pending(t.ring, t.id, KZeroCopy(buf, fd, len, flags, addr, Some(result)))
    case KMessage(op, bufs, store, hdr, vecs, name, count, fd, flags, named, _) =>
      Pending(t.ring, t.id, KMessage(op, bufs, store, hdr, vecs, name, count, fd, flags, named, Some(result)))
  }

  /** Recording a result keeps everything else the ticket has. */
  lemma RecordKeepsTicket(t: Pending, result: int)
    requires TakesNotices(t)
    ensures var t' := WithSent(t, result);
            && SentOf(t') == Some(result) && t'.ring == t.ring && t'.id == t.id
            && Reclaim(t') == Reclaim(t) && KeptMemory(t') == KeptMemory(t) && TakesNotices(t')
  {
  }

  lemma NewTicketHasNone(p: Prepared, ring: nat, id: nat)
    ensures SentOf(IntoPending(p, ring, id).1) == None
  {
  }
}

/**
 `recvmsg`: the kernel scatters the payload, then writes back into the header.
 */
module Recvmsg {
  import opened Bytes
  import opened MsgRegion
  import opened Transfer
  import opened Message

  const AF_INET: nat := 2
  const TRUNC: nat := 0x20

  /** Most bytes one transfer moves, `MAX_RW_COUNT`; it keeps the CQE's result in an `i32`. */
  const MAX_RW: nat := 0x7FFF_F000

  /** What the network had for this request. An empty `peer` names no sender. */
  datatype Arrived =
    | Nothing(errno: nat)
    | Message(payload: seq<Byte>, peer: seq<Byte>, datagram: bool)

  /** What the descriptors offer, as far as one transfer goes. */
  function Room(vs: seq<IoVec>): nat { Min(Total(vs), MAX_RW) }

  /** What one transfer takes of a payload. */
  function Cut(payload: seq<Byte>): seq<Byte> { payload[..Min(|payload|, MAX_RW)] }

  /** Bytes that fit: the kernel's non-negative result. */
  function Accepted(m: Mem, h: MsgHdr, payload: seq<Byte>): nat {
    Min(|payload|, Room(VecsAt(m, h.iov, h.iovlen)))
  }

  /** The header as the kernel leaves it. */
  function Back(m: Mem, h: MsgHdr, a: Arrived): MsgHdr
    requires a.Message?
  {
    h.(namelen := if h.name != 0 then |a.peer| else 0,
       flags := if a.datagram && Accepted(m, h, a.payload) < |a.payload| then 0x20 else 0)
  }

  /** The kernel can carry out a receive: everything it reaches is in memory. */
  predicate Reachable(m: Mem, hdr: nat) {
    var h := HdrAt(m, hdr);
    && hdr + 56 <= |m|
    && InMem(m, VecsAt(m, h.iov, h.iovlen))
    && (h.name != 0 ==> h.name + h.namelen <= |m|)
  }

  /** The bytes of the sender's address that fit the room the header offers. */
  function PeerPart(h: MsgHdr, peer: seq<Byte>): (s: seq<Byte>)
    ensures h.name != 0 ==> |s| <= h.namelen
  {
    if h.name != 0 then peer[..Min(|peer|, h.namelen)] else []
  }

  function DeliveredMem(m: Mem, hdr: nat, a: Arrived): (m': Mem)
    requires Reachable(m, hdr)
    ensures |m'| == |m|
  {
    var h := HdrAt(m, hdr);
    if a.Nothing? then m else
      var m1 := Scatter(m, VecsAt(m, h.iov, h.iovlen), Cut(a.payload));
      var m2 := if h.name != 0 then Store(m1, h.name, PeerPart(h, a.peer)) else m1;
      Store(m2, hdr, HdrBytes(Back(m, h, a)))
  }

  function Result(m: Mem, hdr: nat, a: Arrived): int {
    var n: int := if a.Nothing? then a.errno else Accepted(m, HdrAt(m, hdr), a.payload);
    if a.Nothing? then -n else n
  }

  // ----- the completed request -----

  datatype PeerAddress =
    | NoPeer
    | V4(addr: SockAddrIn)
    | Truncated(reported: nat, reserved: nat)
    | Other(family: nat, reported: nat)

  datatype Received = Report(bytes: nat, flags: nat)
  {
    predicate Trunc() { (flags / TRUNC) % 2 == 1 }
  }

  datatype Outcome = Ok(value: Received) | Failed(errno: nat)

  datatype Completed = Completed(bufs: seq<Buf>, region: Region, result: int, wanted: bool)
  {
    function Received(m: Mem): Outcome {
      if result < 0 then Outcome.Failed(-result)
      else Outcome.Ok(Report(result, HdrAt(m, region.hdr).flags))
    }

    function Peer(m: Mem): PeerAddress
      requires region.Valid() && Inside(m, region.store)
    {
      if result < 0 || !wanted then NoPeer else
        var reported := HdrAt(m, region.hdr).namelen;
        if reported == 0 then NoPeer
        else if reported > 16 then Truncated(reported, 16)
        else
          var staged := AddrOf(Load(m, region.name, 16));
          if reported < 16 || staged.family != AF_INET then Other(staged.family, reported)
          else V4(staged)
    }
  }

  // ----- what a delivery leaves behind -----

  /** The state a receive is submitted in: built, then re-lengthed at will. */
  ghost predicate Submitted(m: Mem, r: Region, bufs: seq<Buf>, wanted: bool, vs: seq<IoVec>) {
    && Owns(m, r, bufs) && |vs| == |bufs|
    && (forall i :: 0 <= i < |vs| ==> vs[i].base == bufs[i].addr && vs[i].len <= bufs[i].len)
    && r.Shows(m, r.Header(wanted), vs)
    && (wanted ==> Load(m, r.name, 16) == Zeros(16))
  }

  lemma FinalVecsWithin(bufs: seq<Buf>, hist: seq<seq<nat>>)
    requires forall k :: 0 <= k < |hist| ==> |hist[k]| == |bufs|
    ensures var vs := FinalVecs(bufs, hist);
            forall i :: 0 <= i < |bufs| ==> vs[i].base == bufs[i].addr && vs[i].len <= bufs[i].len
  {
  }

  lemma ReadyIsSubmitted(m0: Mem, r: Region, bufs: seq<Buf>, wanted: bool, hist: seq<seq<nat>>)
    requires Owns(m0, r, bufs)
    requires forall k :: 0 <= k < |hist| ==> |hist[k]| == |bufs|
    ensures Submitted(Ready(m0, r, bufs, wanted, Zeros(16), hist), r, bufs, wanted, FinalVecs(bufs, hist))
  {
    ReadyShows(m0, r, bufs, wanted, Zeros(16), hist);
    FinalVecsWithin(bufs, hist);
  }

  /** A receive whose lengths were never set has room for all its buffers hold, as far as one transfer goes. */
  lemma UnshortenedRoom(m0: Mem, r: Region, bufs: seq<Buf>, wanted: bool)
    requires Owns(m0, r, bufs)
    ensures var m := Ready(m0, r, bufs, wanted, Zeros(16), []);
            Room(VecsAt(m, r.vecs, r.count)) == Min(SumLens(bufs), MAX_RW)
  {
    ReadyShows(m0, r, bufs, wanted, Zeros(16), []);
    WholeTotal(bufs);
  }

  /** It depends only on the staging store. */
  lemma SubmittedElsewhere(m: Mem, m': Mem, r: Region, bufs: seq<Buf>, wanted: bool, vs: seq<IoVec>)
    requires Submitted(m, r, bufs, wanted, vs) && SameOn(m, m', r.store.addr, r.store.len)
    ensures Submitted(m', r, bufs, wanted, vs)
  {
    r.ShowsElsewhere(m, m', r.Header(wanted), vs);
    LoadSame(m, m', r.name, 16);
  }

  predicate OffStore(r: Region, k: nat) {
    k < r.store.addr || r.store.addr + r.store.len <= k
  }

  /** Descriptors of a submitted receive stay inside their buffers, off the store. */
  lemma SubmittedVecs(m: Mem, r: Region, bufs: seq<Buf>, wanted: bool, vs: seq<IoVec>)
    requires Submitted(m, r, bufs, wanted, vs)
    ensures InMem(m, vs) && Disjoint(vs) && Reachable(m, r.hdr)
    ensures forall k: nat :: r.store.addr <= k < r.store.addr + r.store.len ==> Outside(vs, k)
    ensures HdrAt(m, r.hdr) == r.Header(wanted)
    ensures VecsAt(m, HdrAt(m, r.hdr).iov, HdrAt(m, r.hdr).iovlen) == vs
  {
    forall i, j | 0 <= i < j < |vs|
      ensures Clear(vs[i], vs[j])
    {
      assert Apart(bufs[i], bufs[j]);
    }
    forall k: nat | r.store.addr <= k < r.store.addr + r.store.len
      ensures Outside(vs, k)
    {
      forall i | 0 <= i < |vs|
        ensures k < vs[i].base || vs[i].base + vs[i].len <= k
      {
        assert Apart(bufs[i], r.store);
      }
    }
  }

  /** The write-back part: header and address land in the store, nowhere else. */
  lemma DeliveredStore(m: Mem, r: Region, bufs: seq<Buf>, wanted: bool, vs: seq<IoVec>, a: Arrived)
    requires Submitted(m, r, bufs, wanted, vs) && a.Message? && |a.peer| < Pow256(4)
    ensures Reachable(m, r.hdr)
    ensures var m' := DeliveredMem(m, r.hdr, a);
            && HdrAt(m', r.hdr) == Back(m, r.Header(wanted), a)
            && SameOutside(Scatter(m, VecsAt(m, r.vecs, r.count), Cut(a.payload)), m', r.store)
            && (wanted ==>
                  Load(m', r.name, 16)
                  == a.peer[..Min(|a.peer|, 16)] + Zeros(16)[Min(|a.peer|, 16)..])
  {
    SubmittedVecs(m, r, bufs, wanted, vs);
    PowerFacts();
    var h := r.Header(wanted);
    var m1 := Scatter(m, vs, Cut(a.payload));
    var m2 := if wanted then Store(m1, r.name, PeerPart(h, a.peer)) else m1;
    HdrStored(m2, r.hdr, Back(m, h, a));
    if wanted {
      ScatterKeepsSlot(m, r, vs, Cut(a.payload));
      PrefixStored(m1, IoVec(r.name, 16), PeerPart(h, a.peer));
      LoadApart(m2, r.hdr, HdrBytes(Back(m, h, a)), r.name, 16);
    }
  }

  lemma ScatterKeepsSlot(m: Mem, r: Region, vs: seq<IoVec>, p: seq<Byte>)
    requires r.Valid() && Inside(m, r.store) && InMem(m, vs)
    requires forall k: nat :: r.store.addr <= k < r.store.addr + r.store.len ==> Outside(vs, k)
    ensures Load(Scatter(m, vs, p), r.name, 16) == Load(m, r.name, 16)
  {
    var m1 := Scatter(m, vs, p);
    forall k | r.name <= k < r.name + 16
      ensures m1[k] == m[k]
    {
      ScatterOutside(m, vs, p, k);
    }
    LoadSame(m, m1, r.name, 16);
  }

  lemma CutPrefix(p: seq<Byte>, vs: seq<IoVec>)
    ensures var n := Min(|p|, Room(vs));
            n == Min(|Cut(p)|, Total(vs)) && Cut(p)[..n] == p[..n]
  {
  }

  /** The payload part: described bytes, and everything off both ranges and store. */
  lemma DeliveredPayload(m: Mem, r: Region, bufs: seq<Buf>, wanted: bool, vs: seq<IoVec>, a: Arrived)
    requires Submitted(m, r, bufs, wanted, vs) && a.Message? && |a.peer| < Pow256(4)
    ensures Reachable(m, r.hdr) && InMem(m, vs)
    ensures
      var m' := DeliveredMem(m, r.hdr, a);
      var n := Min(|a.payload|, Room(vs));
      && InMem(m', vs)
      && Gather(m', vs) == a.payload[..n] + Gather(m, vs)[n..]
      && (forall k: nat :: k < |m| && Outside(vs, k) && OffStore(r, k) ==> m'[k] == m[k])
  {
    SubmittedVecs(m, r, bufs, wanted, vs);
    DeliveredStore(m, r, bufs, wanted, vs, a);
    var m1 := Scatter(m, vs, Cut(a.payload));
    var m' := DeliveredMem(m, r.hdr, a);
    ScatterGather(m, vs, Cut(a.payload));
    CutPrefix(a.payload, vs);
    GatherOffStore(m1, m', r, bufs, vs);
    forall k: nat | k < |m| && Outside(vs, k) && OffStore(r, k)
      ensures m'[k] == m[k]
    {
      ScatterOutside(m, vs, Cut(a.payload), k);
    }
  }

  /**
   Scatter is correct end to end. Whatever arrives, the described prefixes of the
   buffers hold the payload's first bytes and then what they held before; every
   other byte outside the staging store is unchanged; and `received` reports the
   count, with `truncated` exactly when a datagram exceeded the capacity.
   */
  lemma RecvmsgScatters(m: Mem, r: Region, bufs: seq<Buf>, wanted: bool, vs: seq<IoVec>, a: Arrived)
    requires Submitted(m, r, bufs, wanted, vs)
    requires a.Nothing? ==> a.errno > 0
    requires a.Message? ==> |a.peer| < Pow256(4)
    ensures Reachable(m, r.hdr) && InMem(m, vs)
    ensures
      var m' := DeliveredMem(m, r.hdr, a);
      var got := Completed(bufs, r, Result(m, r.hdr, a), wanted).Received(m');
      match a
      case Nothing(e) => m' == m && got == Outcome.Failed(e)
      case Message(p, _, datagram) =>
        var n := Min(|p|, Room(vs));
        && InMem(m', vs) && Gather(m', vs) == p[..n] + Gather(m, vs)[n..]
        && (forall k: nat :: k < |m| && Outside(vs, k) && OffStore(r, k) ==> m'[k] == m[k])
        && got.Ok? && got.value.bytes == n < 0x8000_0000
        && (got.value.Trunc() <==> datagram && |p| > Room(vs))
        && got.value.flags == (if got.value.Trunc() then 0x20 else 0)
  {
    SubmittedVecs(m, r, bufs, wanted, vs);
    if a.Message? {
      DeliveredReport(m, r, bufs, wanted, vs, a);
      DeliveredPayload(m, r, bufs, wanted, vs, a);
    }
  }

  /** The report part: count and truncation flag. */
  lemma DeliveredReport(m: Mem, r: Region, bufs: seq<Buf>, wanted: bool, vs: seq<IoVec>, a: Arrived)
    requires Submitted(m, r, bufs, wanted, vs) && a.Message? && |a.peer| < Pow256(4)
    ensures Reachable(m, r.hdr)
    ensures
      var got := Completed(bufs, r, Result(m, r.hdr, a), wanted).Received(DeliveredMem(m, r.hdr, a));
      && got.Ok? && got.value.bytes == Min(|a.payload|, Room(vs))
      && (got.value.Trunc() <==> a.datagram && |a.payload| > Room(vs))
      && got.value.flags == (if got.value.Trunc() then 0x20 else 0)
  {
    SubmittedVecs(m, r, bufs, wanted, vs);
    DeliveredStore(m, r, bufs, wanted, vs, a);
    ReportFrom(Completed(bufs, r, Result(m, r.hdr, a), wanted), DeliveredMem(m, r.hdr, a),
               Min(|a.payload|, Room(vs)), a.datagram && |a.payload| > Room(vs));
  }

  /** What `received` answers, from the result and the written-back flags alone. */
  lemma ReportFrom(done: Completed, m: Mem, n: nat, lost: bool)
    requires done.result == n && HdrAt(m, done.region.hdr).flags == if lost then 0x20 else 0
    ensures var got := done.Received(m);
            got.Ok? && got.value.bytes == n && (got.value.Trunc() <==> lost) && got.value.flags == (if lost then 0x20 else 0)
  {
  }

  /** Header and address writes do not reach the payload. */
  lemma GatherOffStore(m1: Mem, m': Mem, r: Region, bufs: seq<Buf>, vs: seq<IoVec>)
    requires |vs| == |bufs| && InMem(m1, vs) && SameOutside(m1, m', r.store)
    requires forall i :: 0 <= i < |vs| ==> vs[i].base == bufs[i].addr && vs[i].len <= bufs[i].len
    requires forall i :: 0 <= i < |bufs| ==> Apart(bufs[i], r.store)
    ensures InMem(m', vs) && Gather(m', vs) == Gather(m1, vs)
  {
    forall i | 0 <= i < |vs|
      ensures SameOn(m1, m', vs[i].base, vs[i].len)
    {
      assert Apart(bufs[i], r.store);
    }
    GatherSame(m1, m', vs);
  }

  /**
   Peer addresses are sound: `V4(x)` comes back exactly when room was reserved,
   the receive succeeded, and the sender's real address is one whole 16-byte
   `AF_INET` address spelling `x`; so no byte of `x` predates this request. The
   other three answers are pinned down the same way.
   */
  lemma PeerSound(m: Mem, r: Region, bufs: seq<Buf>, wanted: bool, vs: seq<IoVec>, a: Arrived)
    requires Submitted(m, r, bufs, wanted, vs)
    requires a.Nothing? ==> a.errno > 0
    requires a.Message? ==> |a.peer| < Pow256(4)
    ensures Reachable(m, r.hdr)
    ensures
      var m' := DeliveredMem(m, r.hdr, a);
      var peer := Completed(bufs, r, Result(m, r.hdr, a), wanted).Peer(m');
      && (peer.NoPeer? <==> a.Nothing? || !wanted || a.peer == [])
      && (peer.V4? <==> wanted && a.Message? && |a.peer| == 16 && AddrOf(a.peer).family == 2)
      && (peer.V4? ==> AddrBytes(peer.addr) == a.peer)
      && (peer.Truncated? <==> wanted && a.Message? && |a.peer| > 16)
      && (peer.Truncated? || peer.Other? ==> a.Message? && peer.reported == |a.peer|)
      && (peer.Truncated? ==> peer.reserved == 16)
      && (peer.Other? && |a.peer| >= 2 ==> peer.family == Unle(a.peer[..2]))
  {
    SubmittedVecs(m, r, bufs, wanted, vs);
    var m' := DeliveredMem(m, r.hdr, a);
    var done := Completed(bufs, r, Result(m, r.hdr, a), wanted);
    if a.Message? {
      DeliveredStore(m, r, bufs, wanted, vs, a);
      if wanted {
        PeerFromSlot(done, m', a.peer);
      }
    }
  }

  /** What `peer` answers, from the reported length and the slot alone. */
  lemma PeerFromSlot(done: Completed, m: Mem, peer: seq<Byte>)
    requires done.region.Valid() && Inside(m, done.region.store)
    requires done.result >= 0 && done.wanted
    requires HdrAt(m, done.region.hdr).namelen == |peer|
    requires Load(m, done.region.name, 16) == peer[..Min(|peer|, 16)] + Zeros(16)[Min(|peer|, 16)..]
    ensures var p := done.Peer(m);
            && (p.NoPeer? <==> peer == [])
            && (p.Truncated? <==> |peer| > 16)
            && (p.Truncated? || p.Other? ==> p.reported == |peer|)
            && (p.Truncated? ==> p.reserved == 16)
            && (p.Other? && |peer| >= 2 ==> p.family == Unle(peer[..2]))
            && (p.V4? <==> |peer| == 16 && AddrOf(peer).family == AF_INET)
            && (p.V4? ==> AddrBytes(p.addr) == peer)
  {
    if |peer| == 16 {
      assert peer[..16] + Zeros(16)[16..] == peer;
      AddrBytesOf(peer);
    }
    if 2 <= |peer| <= 16 {
      assert Load(m, done.region.name, 16)[0..2] == peer[..2];
    }
  }

  // ----- the kernel's loops -----

  /** One descriptor: write until it is full or the payload runs out. */
  method FillOne(mem: array<Byte>, v: IoVec, payload: seq<Byte>, start: nat) returns (written: nat)
    requires start <= |payload| && v.base + v.len <= mem.Length
    modifies mem
    ensures written == start + Min(|payload| - start, v.len)
    ensures mem[..] == Store(old(mem[..]), v.base, payload[start..written])
  {
    written := start;
    var j := 0;
    while j < v.len && written < |payload|
      invariant 0 <= j <= v.len && written == start + j <= |payload|
      invariant forall k :: 0 <= k < mem.Length ==>
                  mem[k] == if v.base <= k < v.base + j then payload[start + k - v.base] else old(mem[k])
    {
      mem[v.base + j] := payload[written];
      written := written + 1;
      j := j + 1;
    }
  }

  /** The descriptor count, read through the header. */
  method CountVia(mem: array<Byte>, hdr: nat) returns (n: nat)
    ensures n == HdrAt(mem[..], hdr).iovlen
  {
    n := Word(mem[..], hdr + 24);
  }

  /** Follow the header to descriptor `i`. */
  method DescriptorVia(mem: array<Byte>, hdr: nat, i: nat,
                       ghost r: Region, ghost wanted: bool, ghost vs: seq<IoVec>)
    returns (v: IoVec)
    requires r.hdr == hdr && i < r.count && r.Shows(mem[..], r.Header(wanted), vs)
    ensures v == vs[i]
  {
    v := VecAt(mem[..], HdrAt(mem[..], hdr).iov + 16 * i);
  }

  /** One turn of the kernel's loop: follow the header to descriptor `i` and fill what it names. */
  method FillVia(mem: array<Byte>, hdr: nat, payload: seq<Byte>, i: nat, start: nat,
                 ghost m0: Mem, ghost r: Region, ghost bufs: seq<Buf>, ghost wanted: bool, ghost vs: seq<IoVec>)
    returns (written: nat)
    requires Submitted(m0, r, bufs, wanted, vs) && hdr == r.hdr && i < |vs|
    requires Filling(m0, mem[..], r, vs, i, payload, start)
    modifies mem
    ensures Filling(m0, mem[..], r, vs, i + 1, payload, written)
  {
    ghost var m := mem[..];
    SubmittedVecs(m0, r, bufs, wanted, vs);
    r.ShowsElsewhere(m0, m, r.Header(wanted), vs);
    var v := DescriptorVia(mem, hdr, i, r, wanted, vs);
    written := FillOne(mem, v, payload, start);
    FillStep(m0, m, r, vs, i, payload, start, written, mem[..]);
  }

  /**
   Deliver `payload` as the kernel does: each descriptor is read afresh through
   the header while earlier buffers are already being overwritten.
   */
  method Fill(mem: array<Byte>, hdr: nat, payload: seq<Byte>,
              ghost r: Region, ghost bufs: seq<Buf>, ghost wanted: bool, ghost vs: seq<IoVec>)
    returns (written: nat)
    requires Submitted(mem[..], r, bufs, wanted, vs) && hdr == r.hdr
    modifies mem
    ensures InMem(old(mem[..]), vs)
    ensures mem[..] == Scatter(old(mem[..]), vs, payload)
    ensures written == Min(|payload|, Total(vs))
  {
    ghost var m0 := mem[..];
    SubmittedVecs(m0, r, bufs, wanted, vs);
    var count := CountVia(mem, hdr);
    written := 0;
    var i := 0;
    assert vs[0..] == vs && payload[0..] == payload;
    while i < count
      invariant 0 <= i <= count == |vs|
      invariant Filling(m0, mem[..], r, vs, i, payload, written)
    {
      written := FillVia(mem, hdr, payload, i, written, m0, r, bufs, wanted, vs);
      i := i + 1;
    }
  }

  /** Descriptors before `i` are filled, `w` payload bytes are gone, the store is intact. */
  ghost predicate Filling(
    m0: Mem, m: Mem, r: Region, vs: seq<IoVec>, i: nat, p: seq<Byte>, w: nat)
  {
    && i <= |vs| && w <= |p| && InMem(m0, vs) && InMem(m, vs)
    && SameOn(m0, m, r.store.addr, r.store.len)
    && Scatter(m, vs[i..], p[w..]) == Scatter(m0, vs, p)
    && w + Min(|p| - w, Total(vs[i..])) == Min(|p|, Total(vs))
  }

  lemma FillStep(m0: Mem, m: Mem, r: Region, vs: seq<IoVec>, i: nat, p: seq<Byte>, w: nat,
                 w1: nat, m1: Mem)
    requires i < |vs| && Filling(m0, m, r, vs, i, p, w)
    requires forall k: nat :: r.store.addr <= k < r.store.addr + r.store.len ==> Outside(vs, k)
    requires w1 == w + Min(|p| - w, vs[i].len) && m1 == Store(m, vs[i].base, p[w..w1])
    ensures Filling(m0, m1, r, vs, i + 1, p, w1)
  {
    ScatterStep(m, vs, i, p, w, w1, m1);
    StoreOffStore(m, r, vs, i, p[w..w1]);
  }

  lemma StoreOffStore(m: Mem, r: Region, vs: seq<IoVec>, i: nat, b: seq<Byte>)
    requires i < |vs| && InMem(m, vs) && |b| <= vs[i].len
    requires forall k: nat :: r.store.addr <= k < r.store.addr + r.store.len ==> Outside(vs, k)
    ensures SameOn(m, Store(m, vs[i].base, b), r.store.addr, r.store.len)
  {
    forall k: nat | r.store.addr <= k < r.store.addr + r.store.len && k < |m|
      ensures Store(m, vs[i].base, b)[k] == m[k]
    {
      assert Outside(vs, k);
    }
  }
}

/**
 `sendmsg`: what the kernel gathers is what the caller described.
 */
module Sendmsg {
  import opened Arithmetic
  import opened Bytes
  import opened MsgRegion
  import opened Transfer
  import opened Message

  datatype SendTarget = Connected | To(addr: SockAddrIn)
  {
    predicate Fits() { To? ==> addr.Fits() }

    function Slot(): (s: seq<Byte>)
      requires Fits()
      ensures |s| == 16
    {
      if To? then AddrBytes(addr) else Zeros(16)
    }
  }

  /** Each buffer's first `lens[i]` bytes, or all of it when that is fewer, joined. */
  function Prefixes(m: Mem, bufs: seq<Buf>, lens: seq<nat>): seq<Byte>
    requires |lens| == |bufs|
    requires forall i :: 0 <= i < |bufs| ==> Inside(m, bufs[i])
  {
    if bufs == [] then [] else
      Load(m, bufs[0].addr, Min(lens[0], bufs[0].len)) + Prefixes(m, bufs[1..], lens[1..])
  }

  /** The bytes a `sendmsg` whose SQE names `hdr` makes the kernel read. */
  function Gathered(m: Mem, hdr: nat): seq<Byte> {
    var h := HdrAt(m, hdr);
    var vs := VecsAt(m, h.iov, h.iovlen);
    if InMem(m, vs) then Gather(m, vs) else []
  }

  lemma {:induction false} ClampedPrefixes(m: Mem, bufs: seq<Buf>, lens: seq<nat>)
    requires |lens| == |bufs|
    requires forall i :: 0 <= i < |bufs| ==> Inside(m, bufs[i])
    ensures InMem(m, Clamped(bufs, lens))
    ensures Gather(m, Clamped(bufs, lens)) == Prefixes(m, bufs, lens)
  {
    if bufs != [] {
      ClampedPrefixes(m, bufs[1..], lens[1..]);
      assert Clamped(bufs, lens)[1..] == Clamped(bufs[1..], lens[1..]);
    }
  }

  /** The lengths a request ends up with, as the caller asked for them. */
  function FinalLens(bufs: seq<Buf>, hist: seq<seq<nat>>): seq<nat> {
    if hist == [] then Whole(bufs) else hist[|hist| - 1]
  }

  /**
   Gather is correct. Build the request, shorten it any number of times, then let
   anything at all happen to memory outside the staging store, including writes
   through `buffers_mut`: the kernel still reads each buffer's asked-for prefix,
   in order, as it stands at that moment, and the address that was named.
   */
  lemma SendmsgGathers(
    m0: Mem, r: Region, bufs: seq<Buf>, target: SendTarget, hist: seq<seq<nat>>, m: Mem)
    requires Owns(m0, r, bufs) && target.Fits()
    requires forall k :: 0 <= k < |hist| ==> |hist[k]| == |bufs|
    requires SameOn(Ready(m0, r, bufs, target.To?, target.Slot(), hist), m, r.store.addr, r.store.len)
    ensures Gathered(m, r.hdr) == Prefixes(m, bufs, FinalLens(bufs, hist))
    ensures |Gathered(m, r.hdr)| == Total(VecsAt(m, r.vecs, r.count)) < U64
    ensures match target
            case Connected => HdrAt(m, r.hdr).name == 0 && HdrAt(m, r.hdr).namelen == 0
            case To(addr) =>
              && HdrAt(m, r.hdr).namelen == 16
              && |Load(m, HdrAt(m, r.hdr).name, 16)| == 16
              && AddrOf(Load(m, HdrAt(m, r.hdr).name, 16)) == addr
  {
    var m1 := Ready(m0, r, bufs, target.To?, target.Slot(), hist);
    ReadyShows(m0, r, bufs, target.To?, target.Slot(), hist);
    var vs := FinalVecs(bufs, hist);
    r.ShowsElsewhere(m1, m, r.Header(target.To?), vs);
    LoadSame(m1, m, r.name, 16);
    ClampedPrefixes(m, bufs, FinalLens(bufs, hist));
    ClampedFits(m0, r, bufs, FinalLens(bufs, hist));
    TotalFits(m, vs);
    PowerFacts();
    if target.To? {
      AddrOfBytes(target.addr);
    }
  }

  /** A `usize`. */
  function Usize(n: nat): nat { n % U64 }

  lemma WrappedSum(sum: nat, more: nat)
    ensures Usize(Usize(sum) + more) == Usize(sum + more)
  {
  }

  lemma TotalStep(vs: seq<IoVec>, i: nat)
    requires i < |vs|
    ensures Total(vs[i..]) == vs[i].len + Total(vs[i + 1..])
  {
    assert vs[i..][1..] == vs[i + 1..];
  }

  /** One staged descriptor's length, read back out of memory. */
  method LengthAt(mem: array<Byte>, r: Region, i: nat) returns (n: nat)
    requires i < r.count
    ensures n == VecsAt(mem[..], r.vecs, r.count)[i].len
  {
    n := VecAt(mem[..], r.vecs + 16 * i).len;
  }

  /** `total_len`: sum the staged descriptors, reading each back out of memory, in a `usize`. */
  method TotalLen(mem: array<Byte>, r: Region) returns (n: nat)
    ensures n == Usize(Total(VecsAt(mem[..], r.vecs, r.count)))
  {
    ghost var vs := VecsAt(mem[..], r.vecs, r.count);
    ghost var sum: nat := 0;
    n := Usize(0);
    assert vs[0..] == vs;
    var i := 0;
    while i < r.count
      invariant 0 <= i <= r.count
      invariant sum + Total(vs[i..]) == Total(vs) && n == Usize(sum)
    {
      var len := LengthAt(mem, r, i);
      TotalStep(vs, i);
      WrappedSum(sum, len);
      n := Usize(n + len);
      sum := sum + len;
      i := i + 1;
    }
  }

  /** Read one described range, byte by byte. */
  method ReadRange(mem: array<Byte>, v: IoVec) returns (seen: seq<Byte>)
    requires v.base + v.len <= mem.Length
    ensures seen == Load(mem[..], v.base, v.len)
  {
    seen := [];
    var j := 0;
    while j < v.len
      invariant 0 <= j <= v.len
      invariant seen == mem[v.base..v.base + j]
    {
      seen := seen + [mem[v.base + j]];
      j := j + 1;
    }
  }

  /** Walk a descriptor array and join the ranges it names. */
  method ReadVecs(mem: array<Byte>, iov: nat, n: nat) returns (seen: seq<Byte>)
    requires InMem(mem[..], VecsAt(mem[..], iov, n))
    ensures seen == Gather(mem[..], VecsAt(mem[..], iov, n))
  {
    ghost var m := mem[..];
    ghost var vs := VecsAt(m, iov, n);
    ghost var all := Gather(m, vs);
    assert vs[0..] == vs;
    seen := [];
    var i := 0;
    while i < n
      invariant 0 <= i <= n
      invariant seen + Gather(m, vs[i..]) == all
    {
      GatherStep(m, vs, i, seen, all);
      var bytes := ReadRange(mem, VecAt(mem[..], iov + 16 * i));
      seen := seen + bytes;
      i := i + 1;
    }
  }

  /** The kernel's walk: header, then the array through it, then the bytes. */
  method Observe(mem: array<Byte>, hdr: nat) returns (seen: seq<Byte>)
    requires var h := HdrAt(mem[..], hdr); InMem(mem[..], VecsAt(mem[..], h.iov, h.iovlen))
    ensures seen == Gathered(mem[..], hdr)
  {
    var h := HdrAt(mem[..], hdr);
    seen := ReadVecs(mem, h.iov, h.iovlen);
  }

  lemma GatherStep(m: Mem, vs: seq<IoVec>, i: nat, seen: seq<Byte>, all: seq<Byte>)
    requires i < |vs| && InMem(m, vs)
    requires seen + Gather(m, vs[i..]) == all
    ensures seen + Load(m, vs[i].base, vs[i].len) + Gather(m, vs[i + 1..]) == all
  {
    var tail := vs[i..];
    assert tail[0] == vs[i] && tail[1..] == vs[i + 1..];
  }

  /** Every buffer's bytes, all of them, one after another. */
  function AllOf(m: Mem, bufs: seq<Buf>): seq<Byte> {
    if bufs == [] then [] else Load(m, bufs[0].addr, bufs[0].len) + AllOf(m, bufs[1..])
  }

  lemma {:induction false} WholePrefixes(m: Mem, bufs: seq<Buf>)
    requires forall i :: 0 <= i < |bufs| ==> Inside(m, bufs[i])
    ensures Prefixes(m, bufs, Whole(bufs)) == AllOf(m, bufs)
  {
    if bufs != [] {
      WholePrefixes(m, bufs[1..]);
      assert Whole(bufs)[1..] == Whole(bufs[1..]);
    }
  }

  /** A message whose lengths were never set is all of its buffers, and `total_len` their sum. */
  lemma UnshortenedIsEverything(m0: Mem, r: Region, bufs: seq<Buf>, target: SendTarget, m: Mem)
    requires Owns(m0, r, bufs) && target.Fits()
    requires SameOn(Ready(m0, r, bufs, target.To?, target.Slot(), []), m, r.store.addr, r.store.len)
    ensures Gathered(m, r.hdr) == AllOf(m, bufs)
    ensures Total(VecsAt(m, r.vecs, r.count)) == SumLens(bufs)
  {
    SendmsgGathers(m0, r, bufs, target, [], m);
    WholePrefixes(m, bufs);
    ReadyShows(m0, r, bufs, target.To?, target.Slot(), []);
    r.ShowsElsewhere(Ready(m0, r, bufs, target.To?, target.Slot(), []), m, r.Header(target.To?), FinalVecs(bufs, []));
    WholeTotal(bufs);
  }
}

/**
 The header, descriptors and address a message request makes the kernel follow.

 `Region` is `MsgRegion` of the crate: one owned allocation and the addresses
 of the three parts inside it. The functions say what each operation does to
 memory; the methods are the in-place writes, proved equal to them. `HdrAt` and
 `VecAt` are the kernel's side: they only look at bytes.
 */
module MsgRegion {
  import opened Bytes
  import opened Layout

  /** Address-stable storage: the allocation it is, where, and how long. */
  datatype Buf = Buf(id: nat, addr: nat, len: nat)

  predicate Inside(m: Mem, b: Buf) { b.addr + b.len <= |m| }

  /** Only bytes of `b` may differ. */
  predicate SameOutside(m: Mem, m': Mem, b: Buf) {
    |m'| == |m| && forall k :: 0 <= k < |m| && (k < b.addr || b.addr + b.len <= k) ==> m'[k] == m[k]
  }

  lemma SameOutsideTwice(m: Mem, m1: Mem, m2: Mem, b: Buf)
    requires SameOutside(m, m1, b) && SameOutside(m1, m2, b)
    ensures SameOutside(m, m2, b)
  {
  }

  predicate Apart(a: Buf, b: Buf) { a.addr + a.len <= b.addr || b.addr + b.len <= a.addr }

  datatype MsgHdr = MsgHdr(
    name: nat, namelen: nat, iov: nat, iovlen: nat, control: nat, controllen: nat, flags: nat)
  {
    predicate Fits() {
      && name < Pow256(8) && namelen < Pow256(4) && iov < Pow256(8) && iovlen < Pow256(8)
      && control < Pow256(8) && controllen < Pow256(8) && flags < Pow256(4)
    }
  }

  datatype IoVec = IoVec(base: nat, len: nat)

  /** `struct msghdr` as it sits in memory, padding included. */
  function HdrBytes(h: MsgHdr): (s: seq<Byte>)
    ensures |s| == 56
  {
    Le(h.name, 8) + (Le(h.namelen, 4) + Zeros(4)) + Le(h.iov, 8) + Le(h.iovlen, 8)
    + Le(h.control, 8) + Le(h.controllen, 8) + (Le(h.flags, 4) + Zeros(4))
  }

  /** The header the kernel reads at `a`. */
  function HdrAt(m: Mem, a: nat): MsgHdr {
    MsgHdr(Word(m, a), Half(m, a + 8), Word(m, a + 16), Word(m, a + 24),
           Word(m, a + 32), Word(m, a + 40), Half(m, a + 48))
  }

  function VecBytes(v: IoVec): (s: seq<Byte>)
    ensures |s| == 16
  {
    Le(v.base, 8) + Le(v.len, 8)
  }

  /** The descriptor the kernel reads at `a`. */
  function VecAt(m: Mem, a: nat): IoVec { IoVec(Word(m, a), Word(m, a + 8)) }

  /** The descriptor array of `n` entries the kernel reads at `a`. */
  function VecsAt(m: Mem, a: nat, n: nat): (vs: seq<IoVec>)
    ensures |vs| == n && forall i :: 0 <= i < n ==> vs[i] == VecAt(m, a + 16 * i)
  {
    seq(n, i requires 0 <= i < n => VecAt(m, a + 16 * i))
  }

  lemma PowerFacts()
    ensures Pow256(2) == 0x1_0000
    ensures Pow256(4) == 0x1_0000_0000
    ensures Pow256(8) == 0x1_0000_0000_0000_0000
  {
    assert Pow256(1) == 256;
    assert Pow256(3) == 256 * Pow256(2);
    assert Pow256(5) == 256 * Pow256(4);
    assert Pow256(6) == 256 * Pow256(5);
    assert Pow256(7) == 256 * Pow256(6);
  }

  lemma HdrStored(m: Mem, a: nat, h: MsgHdr)
    requires a + 56 <= |m| && h.Fits()
    ensures HdrAt(Store(m, a, HdrBytes(h)), a) == h
  {
    var s := HdrBytes(h);
    assert s[0..8] == Le(h.name, 8);
    assert s[8..12] == Le(h.namelen, 4);
    assert s[16..24] == Le(h.iov, 8);
    assert s[24..32] == Le(h.iovlen, 8);
    assert s[32..40] == Le(h.control, 8);
    assert s[40..48] == Le(h.controllen, 8);
    assert s[48..52] == Le(h.flags, 4);
    LoadStored(m, a, s, 0, 8);
    LoadStored(m, a, s, 8, 4);
    LoadStored(m, a, s, 16, 8);
    LoadStored(m, a, s, 24, 8);
    LoadStored(m, a, s, 32, 8);
    LoadStored(m, a, s, 40, 8);
    LoadStored(m, a, s, 48, 4);
    UnleLe(h.name, 8);
    UnleLe(h.namelen, 4);
    UnleLe(h.iov, 8);
    UnleLe(h.iovlen, 8);
    UnleLe(h.control, 8);
    UnleLe(h.controllen, 8);
    UnleLe(h.flags, 4);
  }

  lemma HdrSame(m: Mem, m': Mem, a: nat)
    requires SameOn(m, m', a, 56)
    ensures HdrAt(m', a) == HdrAt(m, a)
  {
    LoadSame(m, m', a, 8);
    LoadSame(m, m', a + 8, 4);
    LoadSame(m, m', a + 16, 8);
    LoadSame(m, m', a + 24, 8);
    LoadSame(m, m', a + 32, 8);
    LoadSame(m, m', a + 40, 8);
    LoadSame(m, m', a + 48, 4);
  }

  lemma VecStored(m: Mem, a: nat, v: IoVec)
    requires a + 16 <= |m| && v.base < Pow256(8) && v.len < Pow256(8)
    ensures VecAt(Store(m, a, VecBytes(v)), a) == v
  {
    var s := VecBytes(v);
    assert s[0..8] == Le(v.base, 8);
    assert s[8..16] == Le(v.len, 8);
    LoadStored(m, a, s, 0, 8);
    LoadStored(m, a, s, 8, 8);
    UnleLe(v.base, 8);
    UnleLe(v.len, 8);
  }

  lemma VecSame(m: Mem, m': Mem, a: nat)
    requires SameOn(m, m', a, 16)
    ensures VecAt(m', a) == VecAt(m, a)
  {
    LoadSame(m, m', a, 8);
    LoadSame(m, m', a + 8, 8);
  }

  lemma VecsSame(m: Mem, m': Mem, a: nat, n: nat)
    requires SameOn(m, m', a, 16 * n)
    ensures VecsAt(m', a, n) == VecsAt(m, a, n)
  {
    forall i | 0 <= i < n
      ensures VecAt(m', a + 16 * i) == VecAt(m, a + 16 * i)
    {
      VecSame(m, m', a + 16 * i);
    }
  }

  /** Write `b` byte by byte, as a raw pointer copy does. */
  method StoreBytes(mem: array<Byte>, a: nat, b: seq<Byte>)
    requires a + |b| <= mem.Length
    modifies mem
    ensures mem[..] == Store(old(mem[..]), a, b)
  {
    var i := 0;
    while i < |b|
      invariant 0 <= i <= |b|
      invariant forall k :: 0 <= k < mem.Length ==>
                  mem[k] == if a <= k < a + i then b[k - a] else old(mem[k])
    {
      mem[a + i] := b[i];
      i := i + 1;
    }
  }

  // ----- socket addresses -----

  datatype SockAddrIn = SockAddrIn(family: nat, port: nat, addr: nat, zero: seq<Byte>)
  {
    predicate Fits() {
      family < Pow256(2) && port < Pow256(2) && addr < Pow256(4) && |zero| == 8
    }
  }

  /** The struct's own bytes, padding included, as a typed write stores them. */
  function AddrBytes(a: SockAddrIn): (s: seq<Byte>)
    ensures |a.zero| == 8 ==> |s| == 16
  {
    Le(a.family, 2) + Le(a.port, 2) + Le(a.addr, 4) + a.zero
  }

  function AddrOf(s: seq<Byte>): (a: SockAddrIn)
    requires |s| == 16
  {
    SockAddrIn(Unle(s[0..2]), Unle(s[2..4]), Unle(s[4..8]), s[8..16])
  }

  lemma {:induction false} LeUnle(s: seq<Byte>)
    ensures Unle(s) < Pow256(|s|) && Le(Unle(s), |s|) == s
  {
    if s != [] {
      var rest := Unle(s[1..]);
      LeUnle(s[1..]);
      assert Unle(s) == s[0] + 256 * rest;
      assert Unle(s) % 256 == s[0] && Unle(s) / 256 == rest;
      assert s == [s[0]] + s[1..];
    }
  }

  lemma Pieces(a: seq<Byte>, b: seq<Byte>, c: seq<Byte>, d: seq<Byte>)
    ensures var s := a + b + c + d;
            var (i, j, k) := (|a|, |a| + |b|, |a| + |b| + |c|);
            s[0..i] == a && s[i..j] == b && s[j..k] == c && s[k..|s|] == d
  {
  }

  /** Staging an address and reading it back is the identity. */
  lemma AddrOfBytes(a: SockAddrIn)
    requires a.Fits()
    ensures AddrOf(AddrBytes(a)) == a
  {
    Pieces(Le(a.family, 2), Le(a.port, 2), Le(a.addr, 4), a.zero);
    UnleLe(a.family, 2);
    UnleLe(a.port, 2);
    UnleLe(a.addr, 4);
  }

  /** Any 16 bytes are the staged form of exactly the address they decode to. */
  lemma AddrBytesOf(s: seq<Byte>)
    requires |s| == 16
    ensures AddrOf(s).Fits() && AddrBytes(AddrOf(s)) == s
  {
    LeUnle(s[0..2]);
    LeUnle(s[2..4]);
    LeUnle(s[4..8]);
    assert s == s[0..2] + s[2..4] + s[4..8] + s[8..16];
  }

  /** `to_bytes`: the three fields, over a zeroed array. */
  function ToBytes(a: SockAddrIn): (s: seq<Byte>)
    ensures |s| == 16
  {
    Le(a.family, 2) + Le(a.port, 2) + Le(a.addr, 4) + Zeros(8)
  }

  /** An address survives `to_bytes` exactly when its padding is zero; the rest always does. */
  lemma ToBytesKeepsIff(a: SockAddrIn)
    requires a.Fits()
    ensures AddrOf(ToBytes(a)) == SockAddrIn(a.family, a.port, a.addr, Zeros(8))
    ensures AddrOf(ToBytes(a)) == a <==> a.zero == Zeros(8)
  {
    var plain := SockAddrIn(a.family, a.port, a.addr, Zeros(8));
    assert ToBytes(a) == AddrBytes(plain);
    AddrOfBytes(plain);
  }

  /** An address that does not: one set byte of padding is gone. */
  lemma PaddingDropped()
    ensures var a := SockAddrIn(2, 80, 0, [1] + Zeros(7));
            a.Fits() && AddrOf(ToBytes(a)) != a
  {
    PowerFacts();
    var a := SockAddrIn(2, 80, 0, [1] + Zeros(7));
    assert a.zero[0] != Zeros(8)[0];
    ToBytesKeepsIff(a);
  }

  // ----- the region -----

  datatype Region = Region(store: Buf, hdr: nat, vecs: nat, name: nat, count: nat)
  {
    predicate Valid() {
      Place(LP64, store.addr, store.len, count) == Placed(hdr, vecs, name)
    }

    /** Memory after `write_descriptor(i, v.base, v.len)`. */
    function DescriptorWritten(m: Mem, i: nat, v: IoVec): (m': Mem)
      requires Valid() && Inside(m, store) && i < count
      ensures |m'| == |m|
    {
      Store(m, vecs + 16 * i, VecBytes(v))
    }

    /** The header `publish_header` writes; everything not named here is zero. */
    function Header(named: bool): MsgHdr {
      MsgHdr(if named then name else 0, if named then 16 else 0, vecs, count, 0, 0, 0)
    }

    function HeaderPublished(m: Mem, named: bool): (m': Mem)
      requires Valid() && Inside(m, store)
      ensures |m'| == |m|
    {
      Store(m, hdr, HdrBytes(Header(named)))
    }

    function NameWritten(m: Mem, s: seq<Byte>): (m': Mem)
      requires Valid() && Inside(m, store) && |s| == 16
      ensures |m'| == |m|
    {
      Store(m, name, s)
    }

    method WriteDescriptor(mem: array<Byte>, i: nat, v: IoVec)
      requires Valid() && Inside(mem[..], store) && i < count
      modifies mem
      ensures mem[..] == DescriptorWritten(old(mem[..]), i, v)
    {
      StoreBytes(mem, vecs + 16 * i, VecBytes(v));
    }

    method PublishHeader(mem: array<Byte>, named: bool)
      requires Valid() && Inside(mem[..], store)
      modifies mem
      ensures mem[..] == HeaderPublished(old(mem[..]), named)
    {
      StoreBytes(mem, hdr, HdrBytes(Header(named)));
    }

    method WriteName(mem: array<Byte>, s: seq<Byte>)
      requires Valid() && Inside(mem[..], store) && |s| == 16
      modifies mem
      ensures mem[..] == NameWritten(old(mem[..]), s)
    {
      StoreBytes(mem, name, s);
    }

    /** Memory after the first `n` buffers have been stamped into the array. */
    function Stamped(m: Mem, vs: seq<IoVec>, n: nat): (m': Mem)
      requires Valid() && Inside(m, store) && n <= |vs| == count
      ensures |m'| == |m|
    {
      if n == 0 then m else DescriptorWritten(Stamped(m, vs, n - 1), n - 1, vs[n - 1])
    }

    /** `write_descriptors`: stamp every entry in turn. */
    method Stamp(mem: array<Byte>, vs: seq<IoVec>)
      requires Valid() && Inside(mem[..], store) && |vs| == count
      modifies mem
      ensures mem[..] == Stamped(old(mem[..]), vs, count)
    {
      var i := 0;
      while i < count
        invariant 0 <= i <= count
        invariant mem[..] == Stamped(old(mem[..]), vs, i)
      {
        WriteDescriptor(mem, i, vs[i]);
        i := i + 1;
      }
    }

    /** The kernel finds this header and these descriptors by reading memory. */
    predicate Shows(m: Mem, h: MsgHdr, vs: seq<IoVec>) {
      && HdrAt(m, hdr) == h
      && VecsAt(m, vecs, count) == vs
    }

    /** Bytes `[vecs, vecs + 16 * n)` are the only ones that may differ. */
    predicate SameBeyond(m: Mem, m': Mem, n: nat) {
      |m'| == |m| && forall k :: 0 <= k < |m| && (k < vecs || vecs + 16 * n <= k) ==> m'[k] == m[k]
    }

    /** One descriptor write shows at its index and nowhere else. */
    lemma DescriptorReads(m: Mem, i: nat, v: IoVec)
      requires Valid() && Inside(m, store) && i < count
      requires v.base < Pow256(8) && v.len < Pow256(8)
      ensures var m' := DescriptorWritten(m, i, v);
              && VecAt(m', vecs + 16 * i) == v
              && (forall j :: 0 <= j < i ==> VecAt(m', vecs + 16 * j) == VecAt(m, vecs + 16 * j))
              && SameBeyond(m, m', i + 1)
    {
      var m' := DescriptorWritten(m, i, v);
      VecStored(m, vecs + 16 * i, v);
      forall j | 0 <= j < i
        ensures VecAt(m', vecs + 16 * j) == VecAt(m, vecs + 16 * j)
      {
        VecSame(m, m', vecs + 16 * j);
      }
    }

    predicate Encodable(vs: seq<IoVec>) {
      forall v :: v in vs ==> v.base < Pow256(8) && v.len < Pow256(8)
    }

    /** One more descriptor extends what the array reads as by exactly that entry. */
    lemma DescriptorExtends(m: Mem, i: nat, vs: seq<IoVec>)
      requires Valid() && Inside(m, store) && i < count == |vs| && Encodable(vs)
      requires VecsAt(m, vecs, i) == vs[..i]
      ensures VecsAt(DescriptorWritten(m, i, vs[i]), vecs, i + 1) == vs[..i + 1]
      ensures SameBeyond(m, DescriptorWritten(m, i, vs[i]), i + 1)
    {
      DescriptorReads(m, i, vs[i]);
      var now := VecsAt(DescriptorWritten(m, i, vs[i]), vecs, i + 1);
      forall j | 0 <= j <= i
        ensures now[j] == vs[j]
      {
        if j < i {
          assert VecsAt(m, vecs, i)[j] == vs[..i][j];
        }
      }
    }

    /** Stamping shows in the array and nowhere else. */
    lemma {:induction false} StampedReads(m: Mem, vs: seq<IoVec>, n: nat)
      requires Valid() && Inside(m, store) && n <= |vs| == count && Encodable(vs)
      ensures VecsAt(Stamped(m, vs, n), vecs, n) == vs[..n]
      ensures SameBeyond(m, Stamped(m, vs, n), n)
    {
      if n > 0 {
        StampedReads(m, vs, n - 1);
        DescriptorExtends(Stamped(m, vs, n - 1), n - 1, vs);
      }
    }

    /** The whole array, and the untouched header, after a full stamping. */
    lemma StampShows(m: Mem, vs: seq<IoVec>)
      requires Valid() && Inside(m, store) && |vs| == count && Encodable(vs)
      ensures Shows(Stamped(m, vs, count), HdrAt(m, hdr), vs)
      ensures SameBeyond(m, Stamped(m, vs, count), count)
    {
      StampedReads(m, vs, count);
      assert vs[..count] == vs;
      HdrSame(m, Stamped(m, vs, count), hdr);
    }

    /** The array is part of the store. */
    lemma BeyondIsOutside(m: Mem, m': Mem)
      requires Valid() && SameBeyond(m, m', count)
      ensures SameOutside(m, m', store)
    {
    }

    /** Writing the address disturbs neither the array nor anything outside the store. */
    lemma NameShows(m: Mem, s: seq<Byte>)
      requires Valid() && Inside(m, store) && |s| == 16
      ensures var m' := NameWritten(m, s);
              && VecsAt(m', vecs, count) == VecsAt(m, vecs, count)
              && Load(m', name, 16) == s && SameOutside(m, m', store)
    {
      VecsSame(m, NameWritten(m, s), vecs, count);
      LoadStored(m, name, s, 0, 16);
    }

    /** Nor does writing the header, which spares the address too. */
    lemma HeaderElsewhere(m: Mem, named: bool)
      requires Valid() && Inside(m, store) && |m| < Pow256(8)
      ensures var m' := HeaderPublished(m, named);
              Load(m', name, 16) == Load(m, name, 16) && SameOutside(m, m', store)
    {
      LoadApart(m, hdr, HdrBytes(Header(named)), name, 16);
    }

    /** `publish`: the address if there is one, then the header. */
    function Published(m: Mem, named: bool, s: seq<Byte>): (m': Mem)
      requires Valid() && Inside(m, store) && |s| == 16
      ensures |m'| == |m|
    {
      HeaderPublished(if named then NameWritten(m, s) else m, named)
    }

    lemma PublishedShows(m: Mem, named: bool, s: seq<Byte>)
      requires Valid() && Inside(m, store) && |s| == 16 && |m| < Pow256(8)
      ensures var m' := Published(m, named, s);
              && Shows(m', Header(named), VecsAt(m, vecs, count))
              && (named ==> Load(m', name, 16) == s)
              && SameOutside(m, m', store)
    {
      var m1 := if named then NameWritten(m, s) else m;
      if named {
        NameShows(m, s);
      }
      HeaderShows(m1, named);
      HeaderElsewhere(m1, named);
      SameOutsideTwice(m, m1, Published(m, named, s), store);
    }

    lemma HeaderShows(m: Mem, named: bool)
      requires Valid() && Inside(m, store) && |m| < Pow256(8)
      ensures Shows(HeaderPublished(m, named), Header(named), VecsAt(m, vecs, count))
    {
      PowerFacts();
      HdrStored(m, hdr, Header(named));
      var m2 := HeaderPublished(m, named);
      VecsSame(m, m2, vecs, count);
    }

    /** Whatever happens outside the store, the kernel keeps finding the same message. */
    lemma ShowsElsewhere(m: Mem, m': Mem, h: MsgHdr, vs: seq<IoVec>)
      requires Valid() && Inside(m, store) && Shows(m, h, vs)
      requires SameOn(m, m', store.addr, store.len)
      ensures Shows(m', h, vs)
    {
      HdrSame(m, m', hdr);
      VecsSame(m, m', vecs, count);
    }
  }
}

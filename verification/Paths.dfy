/**
 Paths the kernel reads without a length: it scans for the NUL.
 */
module Paths {
  import opened Bytes
  import opened MsgRegion

  datatype PathError = TooLong(needed: nat, got: nat) | NotTerminated | Empty

  /** `OwnedPath`: storage and the length established when it was built. */
  datatype OwnedPath = OwnedPath(store: Buf, len: nat)
  {
    /** The first NUL from the start of the storage is at `len`, inside it, and not at 0. */
    predicate Valid(m: Mem) {
      && Inside(m, store) && 0 < len < store.len && m[store.addr + len] == 0
      && forall i :: store.addr <= i < store.addr + len ==> m[i] != 0
    }

    /** `as_bytes` */
    function AsBytes(m: Mem): seq<Byte>
      requires Inside(m, store) && len <= store.len
    {
      m[store.addr..store.addr + len]
    }
  }

  datatype PathResult = Accepted(path: OwnedPath) | Rejected(error: PathError)

  /** `copy_into`: memory and the answer. */
  method CopyInto(mem: array<Byte>, store: Buf, path: seq<Byte>) returns (r: PathResult)
    requires Inside(mem[..], store)
    modifies mem
    ensures r.Accepted? <==> path != [] && 0 !in path && |path| < store.len
    ensures r.Accepted? ==>
      && r.path == OwnedPath(store, |path|)
      && mem[..] == Store(old(mem[..]), store.addr, path + [0])
    ensures r.Rejected? ==>
      && mem[..] == old(mem[..])
      && r.error == (if path == [] then Empty
                     else if 0 in path then NotTerminated
                     else TooLong(|path| + 1, store.len))
  {
    if path == [] {
      return Rejected(Empty);
    }
    if 0 in path {
      return Rejected(NotTerminated);
    }
    if store.len < |path| + 1 {
      return Rejected(TooLong(|path| + 1, store.len));
    }
    StoreBytes(mem, store.addr, path);
    mem[store.addr + |path|] := 0;
    r := Accepted(OwnedPath(store, |path|));
    assert mem[..] == Store(old(mem[..]), store.addr, path + [0]);
  }

  /** `adopt`: find the terminator rather than trust the caller. */
  method Adopt(mem: array<Byte>, store: Buf) returns (r: PathResult)
    requires Inside(mem[..], store)
    ensures r == Adopted(mem[..], store)
  {
    var n := 0;
    while n < store.len && mem[store.addr + n] != 0
      invariant 0 <= n <= store.len
      invariant ScanFrom(mem[..], store.addr) == ScanFrom(mem[..], store.addr + n)
      decreases store.len - n
    {
      n := n + 1;
    }
    ScanReaches(mem[..], store.addr + n);
    if n == store.len {
      return Rejected(NotTerminated);
    }
    if n == 0 {
      return Rejected(Empty);
    }
    return Accepted(OwnedPath(store, n));
  }

  /** What `adopt` answers: the first NUL decides, wherever the storage ends. */
  function Adopted(m: Mem, store: Buf): PathResult
    requires Inside(m, store)
  {
    var end := ScanFrom(m, store.addr);
    if end >= store.addr + store.len then Rejected(NotTerminated)
    else if end == store.addr then Rejected(Empty)
    else Accepted(OwnedPath(store, end - store.addr))
  }

  /** The kernel's scan from `a`: no bound but the end of memory. */
  function ScanFrom(m: Mem, a: nat): (end: nat)
    requires a <= |m|
    ensures a <= end <= |m|
    decreases |m| - a
  {
    if a == |m| || m[a] == 0 then a else ScanFrom(m, a + 1)
  }

  lemma ScanReaches(m: Mem, a: nat)
    requires a <= |m|
    ensures ScanFrom(m, a) == a <==> a == |m| || m[a] == 0
  {
  }

  /** The scan stops at the first NUL. */
  lemma {:induction false} ScanStops(m: Mem, a: nat, end: nat)
    requires a <= end < |m| && m[end] == 0 && forall i :: a <= i < end ==> m[i] != 0
    ensures ScanFrom(m, a) == end
    decreases end - a
  {
    if a < end {
      ScanStops(m, a + 1, end);
    }
  }

  lemma {:induction false} ScanFinds(m: Mem, a: nat)
    requires a <= |m|
    ensures forall i :: a <= i < ScanFrom(m, a) ==> m[i] != 0
    ensures ScanFrom(m, a) < |m| ==> m[ScanFrom(m, a)] == 0
    decreases |m| - a
  {
    if a < |m| && m[a] != 0 {
      ScanFinds(m, a + 1);
    }
  }

  /** The bytes a kernel with no length reads as the path. */
  function KernelReads(m: Mem, a: nat): seq<Byte>
    requires a <= |m|
  {
    m[a..ScanFrom(m, a)]
  }

  /** A valid path bounds the scan inside its storage, and the kernel reads exactly `as_bytes`. */
  lemma ScanStaysInside(m: Mem, p: OwnedPath)
    requires p.Valid(m)
    ensures ScanFrom(m, p.store.addr) < p.store.addr + p.store.len
    ensures KernelReads(m, p.store.addr) == p.AsBytes(m)
  {
    ScanStops(m, p.store.addr, p.store.addr + p.len);
  }

  /** What `copy_into` leaves in memory is a valid path holding the caller's bytes. */
  lemma CopyIsValid(m: Mem, store: Buf, path: seq<Byte>)
    requires Inside(m, store) && path != [] && 0 !in path && |path| < store.len
    ensures var m' := Store(m, store.addr, path + [0]);
            var p := OwnedPath(store, |path|);
            p.Valid(m') && p.AsBytes(m') == path && SameOutside(m, m', store)
  {
    var m' := Store(m, store.addr, path + [0]);
    assert forall i :: store.addr <= i < store.addr + |path| ==> m'[i] == path[i - store.addr];
  }

  /** `adopt` accepts exactly the storage that holds a valid path, and finds its length. */
  lemma AdoptIffValid(m: Mem, store: Buf)
    requires Inside(m, store)
    ensures Adopted(m, store).Accepted? <==> exists n: nat :: OwnedPath(store, n).Valid(m)
    ensures forall n: nat :: OwnedPath(store, n).Valid(m) ==> Adopted(m, store) == Accepted(OwnedPath(store, n))
    ensures Adopted(m, store).Accepted? ==> Adopted(m, store).path.store == store && Adopted(m, store).path.Valid(m)
  {
    ScanFinds(m, store.addr);
    if Adopted(m, store).Accepted? {
      var n := Adopted(m, store).path.len;
      assert OwnedPath(store, n).Valid(m);
    }
    forall n: nat | OwnedPath(store, n).Valid(m)
      ensures Adopted(m, store) == Accepted(OwnedPath(store, n))
    {
      ScanStops(m, store.addr, store.addr + n);
    }
  }

  /** Refused as empty exactly for a NUL at the start, as unterminated exactly for no NUL at all. */
  lemma AdoptRefusalSays(m: Mem, store: Buf)
    requires Inside(m, store)
    ensures Adopted(m, store) == Rejected(NotTerminated)
       <==> forall i :: store.addr <= i < store.addr + store.len ==> m[i] != 0
    ensures Adopted(m, store) == Rejected(Empty) <==> store.len > 0 && m[store.addr] == 0
  {
    ScanFinds(m, store.addr);
    if ScanFrom(m, store.addr) < store.addr + store.len {
      assert m[ScanFrom(m, store.addr)] == 0;
    }
  }

  /** `copy_into`, `into_storage`, `adopt`: the same path comes back, whatever happened elsewhere. */
  lemma CopyThenAdopt(m: Mem, store: Buf, path: seq<Byte>, later: Mem)
    requires Inside(m, store) && path != [] && 0 !in path && |path| < store.len
    requires SameOn(Store(m, store.addr, path + [0]), later, store.addr, store.len)
    ensures Adopted(later, store) == Accepted(OwnedPath(store, |path|))
    ensures OwnedPath(store, |path|).AsBytes(later) == path
    ensures KernelReads(later, store.addr) == path
  {
    var p := OwnedPath(store, |path|);
    CopyIsValid(m, store, path);
    assert p.Valid(later) && p.AsBytes(later) == path;
    AdoptIffValid(later, store);
    ScanStaysInside(later, p);
  }
}

/**
 Building a `sendmsg` or `recvmsg` request in place, and what the kernel then
 finds by following it.

 The two requests stage the same three parts the same way; they differ in who
 fills the address slot and in which direction the payload moves.
 */
module Message {
  import opened Bytes
  import opened MsgRegion
  import opened Transfer

  /** The storage one message request owns, all of it inside memory and apart. */
  ghost predicate Owns(m: Mem, r: Region, bufs: seq<Buf>) {
    && r.Valid() && r.count == |bufs| && |m| < Pow256(8) && Inside(m, r.store)
    && (forall i :: 0 <= i < |bufs| ==> Inside(m, bufs[i]) && Apart(bufs[i], r.store))
    && (forall i, j :: 0 <= i < j < |bufs| ==> Apart(bufs[i], bufs[j]))
  }

  /** Descriptors for `bufs`, each shortened to `lens` but never past its buffer. */
  function Clamped(bufs: seq<Buf>, lens: seq<nat>): (vs: seq<IoVec>)
    requires |lens| == |bufs|
    ensures |vs| == |bufs|
  {
    seq(|bufs|, i requires 0 <= i < |bufs| => IoVec(bufs[i].addr, Min(lens[i], bufs[i].len)))
  }

  /** The lengths `new` starts from: every buffer whole. */
  function Whole(bufs: seq<Buf>): (lens: seq<nat>)
    ensures |lens| == |bufs|
  {
    seq(|bufs|, i requires 0 <= i < |bufs| => bufs[i].len)
  }

  /** What `build` does to memory; `slot` is the address it stages, if any. */
  function Built(m: Mem, r: Region, bufs: seq<Buf>, named: bool, slot: seq<Byte>): (m': Mem)
    requires r.Valid() && Inside(m, r.store) && r.count == |bufs| && |slot| == 16
    ensures |m'| == |m|
  {
    r.Published(r.Stamped(m, Clamped(bufs, Whole(bufs)), r.count), named, slot)
  }

  /** `build` in place: stamp the array, stage the address, write the header last. */
  method Build(mem: array<Byte>, r: Region, bufs: seq<Buf>, named: bool, slot: seq<Byte>)
    requires r.Valid() && Inside(mem[..], r.store) && r.count == |bufs| && |slot| == 16
    modifies mem
    ensures mem[..] == Built(old(mem[..]), r, bufs, named, slot)
  {
    r.Stamp(mem, Clamped(bufs, Whole(bufs)));
    if named {
      r.WriteName(mem, slot);
    }
    r.PublishHeader(mem, named);
  }

  /** `with_lens` in place: clamp each length, then restamp the whole array. */
  method WithLens(mem: array<Byte>, r: Region, bufs: seq<Buf>, lens: seq<nat>)
    requires r.Valid() && Inside(mem[..], r.store) && r.count == |bufs| == |lens|
    modifies mem
    ensures mem[..] == r.Stamped(old(mem[..]), Clamped(bufs, lens), r.count)
  {
    var clamped: seq<IoVec> := [];
    var i := 0;
    while i < |bufs|
      invariant 0 <= i <= |bufs|
      invariant clamped == Clamped(bufs, lens)[..i]
    {
      clamped := clamped + [IoVec(bufs[i].addr, Min(lens[i], bufs[i].len))];
      i := i + 1;
    }
    assert clamped == Clamped(bufs, lens);
    r.Stamp(mem, clamped);
  }

  /** Memory after any sequence of `with_lens` calls. */
  function Relensed(m: Mem, r: Region, bufs: seq<Buf>, hist: seq<seq<nat>>): (m': Mem)
    requires r.Valid() && Inside(m, r.store) && r.count == |bufs|
    requires forall k :: 0 <= k < |hist| ==> |hist[k]| == |bufs|
    ensures |m'| == |m|
  {
    if hist == [] then m else
      var last := |hist| - 1;
      r.Stamped(Relensed(m, r, bufs, hist[..last]), Clamped(bufs, hist[last]), r.count)
  }

  /** The last `with_lens` decides, and before the first one every buffer is whole. */
  function FinalVecs(bufs: seq<Buf>, hist: seq<seq<nat>>): (vs: seq<IoVec>)
    requires forall k :: 0 <= k < |hist| ==> |hist[k]| == |bufs|
    ensures |vs| == |bufs|
  {
    Clamped(bufs, if hist == [] then Whole(bufs) else hist[|hist| - 1])
  }

  lemma ClampedFits(m: Mem, r: Region, bufs: seq<Buf>, lens: seq<nat>)
    requires Owns(m, r, bufs) && |lens| == |bufs|
    ensures r.Encodable(Clamped(bufs, lens))
    ensures InMem(m, Clamped(bufs, lens)) && Disjoint(Clamped(bufs, lens))
    ensures forall k: nat :: k < |m| && r.store.addr <= k < r.store.addr + r.store.len ==>
              Outside(Clamped(bufs, lens), k)
  {
    var vs := Clamped(bufs, lens);
    forall v | v in vs
      ensures v.base < Pow256(8) && v.len < Pow256(8)
    {
      var i :| 0 <= i < |vs| && v == vs[i];
    }
    forall i, j | 0 <= i < j < |vs|
      ensures Clear(vs[i], vs[j])
    {
      assert Apart(bufs[i], bufs[j]);
    }
  }

  /** After `build` the kernel finds exactly this header, array and address. */
  lemma BuildShows(m: Mem, r: Region, bufs: seq<Buf>, named: bool, slot: seq<Byte>)
    requires Owns(m, r, bufs) && |slot| == 16
    ensures var m' := Built(m, r, bufs, named, slot);
            && r.Shows(m', r.Header(named), Clamped(bufs, Whole(bufs)))
            && (named ==> Load(m', r.name, 16) == slot)
            && SameOutside(m, m', r.store)
  {
    var vs := Clamped(bufs, Whole(bufs));
    ClampedFits(m, r, bufs, Whole(bufs));
    var m1 := r.Stamped(m, vs, r.count);
    r.StampShows(m, vs);
    r.BeyondIsOutside(m, m1);
    r.PublishedShows(m1, named, slot);
    SameOutsideTwice(m, m1, Built(m, r, bufs, named, slot), r.store);
  }

  /** Any history of `with_lens` keeps the header and address and sets the array. */
  lemma {:induction false} RelensShows(
    m: Mem, r: Region, bufs: seq<Buf>, hist: seq<seq<nat>>, h: MsgHdr)
    requires Owns(m, r, bufs) && r.Shows(m, h, Clamped(bufs, Whole(bufs)))
    requires forall k :: 0 <= k < |hist| ==> |hist[k]| == |bufs|
    ensures var m' := Relensed(m, r, bufs, hist);
            && r.Shows(m', h, FinalVecs(bufs, hist))
            && Load(m', r.name, 16) == Load(m, r.name, 16)
            && SameOutside(m, m', r.store)
  {
    if hist != [] {
      var last := |hist| - 1;
      RelensShows(m, r, bufs, hist[..last], h);
      var before := Relensed(m, r, bufs, hist[..last]);
      var after := Relensed(m, r, bufs, hist);
      ClampedFits(before, r, bufs, hist[last]);
      r.StampShows(before, Clamped(bufs, hist[last]));
      LoadSame(before, after, r.name, 16);
    }
  }

  /** The state of memory a built and re-lengthed request is pushed with. */
  function Ready(m: Mem, r: Region, bufs: seq<Buf>, named: bool, slot: seq<Byte>, hist: seq<seq<nat>>): Mem
    requires r.Valid() && Inside(m, r.store) && r.count == |bufs| && |slot| == 16
    requires forall k :: 0 <= k < |hist| ==> |hist[k]| == |bufs|
  {
    Relensed(Built(m, r, bufs, named, slot), r, bufs, hist)
  }

  lemma ReadyShows(m: Mem, r: Region, bufs: seq<Buf>, named: bool, slot: seq<Byte>, hist: seq<seq<nat>>)
    requires Owns(m, r, bufs) && |slot| == 16
    requires forall k :: 0 <= k < |hist| ==> |hist[k]| == |bufs|
    ensures var m' := Ready(m, r, bufs, named, slot, hist);
            && Owns(m', r, bufs)
            && r.Shows(m', r.Header(named), FinalVecs(bufs, hist))
            && (named ==> Load(m', r.name, 16) == slot)
            && SameOutside(m, m', r.store)
  {
    BuildShows(m, r, bufs, named, slot);
    RelensShows(Built(m, r, bufs, named, slot), r, bufs, hist, r.Header(named));
  }

  /**
   What is found in memory, one word at a time: descriptor `i` names buffer `i` from its
   first byte, whole if the lengths were never set, and otherwise as much as was last
   asked for, up to the buffer's end.
   */
  lemma ReadyDescriptor(m: Mem, r: Region, bufs: seq<Buf>, named: bool, slot: seq<Byte>, hist: seq<seq<nat>>, i: nat)
    requires Owns(m, r, bufs) && |slot| == 16 && i < |bufs|
    requires forall k :: 0 <= k < |hist| ==> |hist[k]| == |bufs|
    ensures var v := VecAt(Ready(m, r, bufs, named, slot, hist), r.vecs + 16 * i);
            && v.base == bufs[i].addr
            && v.len == (if hist == [] || hist[|hist| - 1][i] > bufs[i].len then bufs[i].len else hist[|hist| - 1][i])
  {
    FinalDescriptor(bufs, hist, i);
    ReadyShows(m, r, bufs, named, slot, hist);
    ShownDescriptor(Ready(m, r, bufs, named, slot, hist), r, r.Header(named), FinalVecs(bufs, hist), i);
  }

  lemma ShownDescriptor(m: Mem, r: Region, h: MsgHdr, vs: seq<IoVec>, i: nat)
    requires r.Shows(m, h, vs) && i < r.count
    ensures i < |vs| && VecAt(m, r.vecs + 16 * i) == vs[i]
  {
  }

  lemma FinalDescriptor(bufs: seq<Buf>, hist: seq<seq<nat>>, i: nat)
    requires i < |bufs|
    requires forall k :: 0 <= k < |hist| ==> |hist[k]| == |bufs|
    ensures var v := FinalVecs(bufs, hist)[i];
            && v.base == bufs[i].addr
            && v.len == (if hist == [] || hist[|hist| - 1][i] > bufs[i].len then bufs[i].len else hist[|hist| - 1][i])
  {
  }

  /** And the header names the array, as many descriptors as buffers, the address slot if one is used, and nothing else. */
  lemma ReadyHeader(m: Mem, r: Region, bufs: seq<Buf>, named: bool, slot: seq<Byte>, hist: seq<seq<nat>>)
    requires Owns(m, r, bufs) && |slot| == 16
    requires forall k :: 0 <= k < |hist| ==> |hist[k]| == |bufs|
    ensures HdrAt(Ready(m, r, bufs, named, slot, hist), r.hdr)
         == if named then MsgHdr(r.name, 16, r.vecs, |bufs|, 0, 0, 0) else MsgHdr(0, 0, r.vecs, |bufs|, 0, 0, 0)
  {
    ReadyShows(m, r, bufs, named, slot, hist);
  }

  /** Bytes in all the buffers together. */
  function SumLens(bufs: seq<Buf>): nat {
    if bufs == [] then 0 else bufs[0].len + SumLens(bufs[1..])
  }

  lemma {:induction false} WholeTotal(bufs: seq<Buf>)
    ensures Total(Clamped(bufs, Whole(bufs))) == SumLens(bufs)
  {
    if bufs != [] {
      WholeTotal(bufs[1..]);
      assert Clamped(bufs, Whole(bufs))[1..] == Clamped(bufs[1..], Whole(bufs[1..]));
    }
  }
}

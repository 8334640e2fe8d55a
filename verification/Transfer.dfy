/**
 The kernel's side of a message request: it starts from the header's address
 and reaches everything else by decoding memory.
 */
module Transfer {
  import opened Bytes
  import opened MsgRegion

  function Total(vs: seq<IoVec>): nat {
    if vs == [] then 0 else vs[0].len + Total(vs[1..])
  }

  predicate InMem(m: Mem, vs: seq<IoVec>) {
    forall i :: 0 <= i < |vs| ==> vs[i].base + vs[i].len <= |m|
  }

  predicate Clear(v: IoVec, w: IoVec) {
    v.base + v.len <= w.base || w.base + w.len <= v.base
  }

  predicate Disjoint(vs: seq<IoVec>) {
    forall i, j :: 0 <= i < j < |vs| ==> Clear(vs[i], vs[j])
  }

  /** Address `k` lies in none of the ranges. */
  predicate Outside(vs: seq<IoVec>, k: nat) {
    forall i :: 0 <= i < |vs| ==> k < vs[i].base || vs[i].base + vs[i].len <= k
  }

  /** All bytes the descriptors name, in descriptor order. */
  function Gather(m: Mem, vs: seq<IoVec>): (s: seq<Byte>)
    requires InMem(m, vs)
    ensures |s| == Total(vs)
  {
    if vs == [] then [] else Load(m, vs[0].base, vs[0].len) + Gather(m, vs[1..])
  }

  /** Fill the described ranges in order until the payload or the room runs out. */
  function Scatter(m: Mem, vs: seq<IoVec>, p: seq<Byte>): (m': Mem)
    requires InMem(m, vs)
    ensures |m'| == |m|
    decreases |vs|
  {
    if vs == [] then m else
      var k := Min(|p|, vs[0].len);
      Scatter(Store(m, vs[0].base, p[..k]), vs[1..], p[k..])
  }

  lemma {:induction false} ScatterOutside(m: Mem, vs: seq<IoVec>, p: seq<Byte>, k: nat)
    requires InMem(m, vs) && Outside(vs, k) && k < |m|
    ensures Scatter(m, vs, p)[k] == m[k]
    decreases |vs|
  {
    if vs != [] {
      var n := Min(|p|, vs[0].len);
      ScatterOutside(Store(m, vs[0].base, p[..n]), vs[1..], p[n..], k);
    }
  }

  lemma {:induction false} GatherSame(m: Mem, m': Mem, vs: seq<IoVec>)
    requires InMem(m, vs) && InMem(m', vs)
    requires forall i :: 0 <= i < |vs| ==> SameOn(m, m', vs[i].base, vs[i].len)
    ensures Gather(m', vs) == Gather(m, vs)
  {
    if vs != [] {
      LoadSame(m, m', vs[0].base, vs[0].len);
      GatherSame(m, m', vs[1..]);
    }
  }

  /** Filling one range only ever touches that range. */
  lemma GatherAfterStore(m: Mem, v: IoVec, rest: seq<IoVec>, b: seq<Byte>)
    requires InMem(m, rest) && v.base + v.len <= |m| && |b| <= v.len
    requires forall i :: 0 <= i < |rest| ==> Clear(v, rest[i])
    ensures Gather(Store(m, v.base, b), rest) == Gather(m, rest)
  {
    GatherSame(m, Store(m, v.base, b), rest);
  }

  lemma FirstAfterRest(m: Mem, v: IoVec, rest: seq<IoVec>, p: seq<Byte>)
    requires InMem(m, rest) && v.base + v.len <= |m|
    requires forall i :: 0 <= i < |rest| ==> Clear(v, rest[i])
    ensures Load(Scatter(m, rest, p), v.base, v.len) == Load(m, v.base, v.len)
  {
    var m' := Scatter(m, rest, p);
    forall k | v.base <= k < v.base + v.len
      ensures m'[k] == m[k]
    {
      ScatterOutside(m, rest, p, k);
    }
    LoadSame(m, m', v.base, v.len);
  }

  /** What the first range holds after its own fill and everything behind it. */
  lemma FirstHolds(m: Mem, v: IoVec, rest: seq<IoVec>, p: seq<Byte>, k: nat)
    requires InMem(m, rest) && v.base + v.len <= |m| && k == Min(|p|, v.len)
    requires forall i :: 0 <= i < |rest| ==> Clear(v, rest[i])
    ensures Load(Scatter(Store(m, v.base, p[..k]), rest, p[k..]), v.base, v.len)
         == p[..k] + Load(m, v.base, v.len)[k..]
  {
    var m1 := Store(m, v.base, p[..k]);
    FirstAfterRest(m1, v, rest, p[k..]);
    PrefixStored(m, v, p[..k]);
  }

  lemma PrefixStored(m: Mem, v: IoVec, b: seq<Byte>)
    requires v.base + v.len <= |m| && |b| <= v.len
    ensures Load(Store(m, v.base, b), v.base, v.len) == b + Load(m, v.base, v.len)[|b|..]
  {
  }

  /** `old` with `p` laid over its beginning, as far as it fits. */
  function Overlay(was: seq<Byte>, p: seq<Byte>): (s: seq<Byte>) {
    var n := Min(|p|, |was|);
    p[..n] + was[n..]
  }

  /** Laying a payload over two parts is laying its two parts over each. */
  lemma OverlaySplits(head: seq<Byte>, tail: seq<Byte>, p: seq<Byte>, k: nat)
    requires k == Min(|p|, |head|)
    ensures Overlay(head + tail, p) == p[..k] + head[k..] + Overlay(tail, p[k..])
  {
  }

  lemma TailClear(m: Mem, vs: seq<IoVec>)
    requires vs != [] && InMem(m, vs) && Disjoint(vs)
    ensures InMem(m, vs[1..]) && Disjoint(vs[1..])
    ensures forall i :: 0 <= i < |vs[1..]| ==> Clear(vs[0], vs[1..][i])
  {
    assert forall i :: 0 <= i < |vs[1..]| ==> vs[1..][i] == vs[i + 1];
  }

  /** If the rest is overlaid after the first range is filled, so is the whole. */
  lemma OverlayFirst(m: Mem, v: IoVec, rest: seq<IoVec>, p: seq<Byte>, k: nat, m1: Mem, m': Mem)
    requires v.base + v.len <= |m| && InMem(m, rest) && k == Min(|p|, v.len)
    requires forall i :: 0 <= i < |rest| ==> Clear(v, rest[i])
    requires m1 == Store(m, v.base, p[..k]) && m' == Scatter(m1, rest, p[k..])
    requires Gather(m', rest) == Overlay(Gather(m1, rest), p[k..])
    ensures Load(m', v.base, v.len) + Gather(m', rest)
         == Overlay(Load(m, v.base, v.len) + Gather(m, rest), p)
  {
    FirstHolds(m, v, rest, p, k);
    GatherAfterStore(m, v, rest, p[..k]);
    OverlaySplits(Load(m, v.base, v.len), Gather(m, rest), p, k);
  }

  lemma {:induction false} ScatterOverlays(m: Mem, vs: seq<IoVec>, p: seq<Byte>)
    requires InMem(m, vs) && Disjoint(vs)
    ensures Gather(Scatter(m, vs, p), vs) == Overlay(Gather(m, vs), p)
    decreases |vs|
  {
    if vs != [] {
      var v, rest := vs[0], vs[1..];
      var k := Min(|p|, v.len);
      var m1 := Store(m, v.base, p[..k]);
      TailClear(m, vs);
      ScatterOverlays(m1, rest, p[k..]);
      OverlayFirst(m, v, rest, p, k, m1, Scatter(m1, rest, p[k..]));
    }
  }

  /**
   Scatter is correct: read back through the same descriptors, memory holds the
   payload as far as it fits and, after that, exactly the bytes it held before.
   */
  lemma ScatterGather(m: Mem, vs: seq<IoVec>, p: seq<Byte>)
    requires InMem(m, vs) && Disjoint(vs)
    ensures var k := Min(|p|, Total(vs));
            Gather(Scatter(m, vs, p), vs) == p[..k] + Gather(m, vs)[k..]
  {
    ScatterOverlays(m, vs, p);
  }

  /** One descriptor of a scatter: what the kernel's outer loop does per iteration. */
  lemma ScatterStep(m: Mem, vs: seq<IoVec>, i: nat, p: seq<Byte>, w: nat, w1: nat, m1: Mem)
    requires i < |vs| && InMem(m, vs) && w <= w1 <= |p|
    requires w1 - w == Min(|p| - w, vs[i].len)
    requires m1 == Store(m, vs[i].base, p[w..w1])
    ensures Scatter(m, vs[i..], p[w..]) == Scatter(m1, vs[i + 1..], p[w1..])
    ensures Total(vs[i..]) == vs[i].len + Total(vs[i + 1..])
  {
    var tail := vs[i..];
    assert tail[0] == vs[i] && tail[1..] == vs[i + 1..];
    assert p[w..][..w1 - w] == p[w..w1];
    assert p[w..][w1 - w..] == p[w1..];
  }

  // ----- disjoint ranges fit in memory -----

  function Interval(a: nat, n: nat): (s: set<nat>)
    ensures |s| == n && forall x: nat :: x in s <==> a <= x < a + n
  {
    if n == 0 then {} else Interval(a, n - 1) + {a + n - 1}
  }

  function Covered(vs: seq<IoVec>): set<nat> {
    if vs == [] then {} else Interval(vs[0].base, vs[0].len) + Covered(vs[1..])
  }

  lemma {:induction false} CoveredApart(v: IoVec, rest: seq<IoVec>)
    requires forall i :: 0 <= i < |rest| ==> Clear(v, rest[i])
    ensures Interval(v.base, v.len) !! Covered(rest)
  {
    if rest != [] {
      assert Clear(v, rest[0]);
      assert forall i :: 0 <= i < |rest| - 1 ==> rest[1..][i] == rest[i + 1];
      CoveredApart(v, rest[1..]);
    }
  }

  lemma {:induction false} CoveredSize(m: Mem, vs: seq<IoVec>)
    requires InMem(m, vs) && Disjoint(vs)
    ensures |Covered(vs)| == Total(vs) && Covered(vs) <= Interval(0, |m|)
  {
    if vs != [] {
      TailClear(m, vs);
      CoveredSize(m, vs[1..]);
      CoveredApart(vs[0], vs[1..]);
    }
  }

  lemma {:induction false} SubsetSize(a: set<nat>, b: set<nat>)
    requires a <= b
    ensures |a| <= |b|
    decreases a
  {
    if a != {} {
      var x :| x in a;
      SubsetSize(a - {x}, b - {x});
    }
  }

  /** Disjoint ranges of one address space cannot add up to more than it holds. */
  lemma TotalFits(m: Mem, vs: seq<IoVec>)
    requires InMem(m, vs) && Disjoint(vs)
    ensures Total(vs) <= |m|
  {
    CoveredSize(m, vs);
    SubsetSize(Covered(vs), Interval(0, |m|));
  }
}

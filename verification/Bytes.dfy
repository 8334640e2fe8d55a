/**
 Byte-addressed memory shared by the application and the kernel.

 One flat sequence of bytes stands for the address space; an address is an
 index into it. Integers and pointers are staged in it little-endian, so that
 "the kernel follows a pointer" means decoding bytes that earlier code wrote.
 */
module Bytes {

  type Byte = x: int | 0 <= x < 256
  type Mem = seq<Byte>

  function Min(a: nat, b: nat): nat { if a <= b then a else b }

  function Pow256(n: nat): (p: nat)
    ensures p > 0
  {
    if n == 0 then 1 else 256 * Pow256(n - 1)
  }

  /** The low `n` bytes of `v`, least significant first. */
  function Le(v: nat, n: nat): (s: seq<Byte>)
    ensures |s| == n
  {
    if n == 0 then [] else [v % 256] + Le(v / 256, n - 1)
  }

  /** The number a little-endian byte string spells. */
  function Unle(s: seq<Byte>): nat {
    if s == [] then 0 else s[0] + 256 * Unle(s[1..])
  }

  function Zeros(n: nat): (s: seq<Byte>)
    ensures |s| == n && forall i :: 0 <= i < n ==> s[i] == 0
  {
    seq(n, i => 0)
  }

  /** Staging a number and reading it back is the identity while it fits. */
  lemma {:induction false} UnleLe(v: nat, n: nat)
    requires v < Pow256(n)
    ensures Unle(Le(v, n)) == v
  {
    if n == 0 {
    } else {
      assert Le(v, n)[1..] == Le(v / 256, n - 1);
      UnleLe(v / 256, n - 1);
    }
  }

  /** The bytes at `[a, a + n)`, or nothing if that range leaves memory. */
  function Load(m: Mem, a: nat, n: nat): (s: seq<Byte>)
    ensures a + n <= |m| ==> |s| == n
  {
    if a + n <= |m| then m[a..a + n] else []
  }

  /** Overwrite the bytes from `a` on with `b`. */
  function Store(m: Mem, a: nat, b: seq<Byte>): (r: Mem)
    requires a + |b| <= |m|
    ensures |r| == |m|
    ensures forall i :: 0 <= i < |m| ==> r[i] == if a <= i < a + |b| then b[i - a] else m[i]
  {
    m[..a] + b + m[a + |b|..]
  }

  /** An 8-byte word: a pointer or a `usize`. */
  function Word(m: Mem, a: nat): nat { Unle(Load(m, a, 8)) }

  /** A 4-byte word: a `u32`, or the bits of an `i32`. */
  function Half(m: Mem, a: nat): nat { Unle(Load(m, a, 4)) }

  predicate SameOn(m: Mem, m': Mem, a: nat, n: nat) {
    |m'| == |m| && forall i :: a <= i < a + n && i < |m| ==> m'[i] == m[i]
  }

  lemma LoadSame(m: Mem, m': Mem, a: nat, n: nat)
    requires SameOn(m, m', a, n)
    ensures Load(m', a, n) == Load(m, a, n)
  {
    if a + n <= |m| {
      assert m'[a..a + n] == m[a..a + n];
    }
  }

  /** Reading back, at any offset inside it, what was just stored. */
  lemma LoadStored(m: Mem, a: nat, b: seq<Byte>, off: nat, n: nat)
    requires a + |b| <= |m| && off + n <= |b|
    ensures Load(Store(m, a, b), a + off, n) == b[off..off + n]
  {
    assert Store(m, a, b)[a + off..a + off + n] == b[off..off + n];
  }

  /** A store leaves every range it does not overlap as it was. */
  lemma LoadApart(m: Mem, a: nat, b: seq<Byte>, c: nat, n: nat)
    requires a + |b| <= |m|
    requires c + n <= a || a + |b| <= c
    ensures Load(Store(m, a, b), c, n) == Load(m, c, n)
  {
    LoadSame(m, Store(m, a, b), c, n);
  }
}

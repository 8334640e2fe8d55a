/**
 What the caller has after each of its own moves, and what memory holds after a write.
 */
module Effects {
  import opened Bytes
  import opened MsgRegion
  import opened Footprint
  import opened Paths
  import opened Protocol
  import opened ProtocolRuns
  import M = PoolMemory

  /** Handles other than these hold what they held. */
  ghost predicate OthersHold(s: Sys, s': Sys, touched: set<nat>) {
    forall g: nat :: g !in touched ==> (g in s'.vals <==> g in s.vals) && (g in s.vals ==> s'.vals[g] == s.vals[g])
  }

  /** New storage: live, under a handle of its own, and the caller's to read and write. */
  lemma AllocateGives(s: Sys, addr: nat, len: nat)
    requires CanAllocate(s, addr, len)
    ensures var s' := Apply(s, Allocate(addr, len));
            && s.nextVal in s'.vals && OthersHold(s, s', {s.nextVal}) && s'.mem == s.mem
            && (exists b: Buf :: b.addr == addr && b.len == len && b in s'.live
                  && s'.vals[s.nextVal].Owns() == {b} && s'.vals[s.nextVal].Exposes() == {b})
  {
    var b := Buf(s.nextBuf, addr, len);
    assert DoAllocate(s, addr, len).vals[s.nextVal].Owns() == {b};
  }

  /** Two heaps of buffers become one, or one two, and the caller can still reach them all. */
  lemma JoinGives(s: Sys, h: nat, o: nat)
    requires Enabled(s, Join(h, o))
    ensures var s' := Apply(s, Join(h, o));
            && h in s'.vals && o !in s'.vals && OthersHold(s, s', {h, o})
            && s'.vals[h].Exposes() == s'.vals[h].Owns() == s.vals[h].Owns() + s.vals[o].Owns()
  {
  }

  lemma DivideGives(s: Sys, h: nat, part: set<Buf>)
    requires Enabled(s, Divide(h, part)) && h != s.nextVal
    ensures var s' := Apply(s, Divide(h, part));
            && h in s'.vals && s.nextVal in s'.vals && OthersHold(s, s', {h, s.nextVal})
            && s'.vals[s.nextVal].Exposes() == part && s'.vals[h].Exposes() == s.vals[h].Owns() - part
  {
  }

  /** The prepared request is one that makes the kernel go to exactly these ranges. */
  lemma PrepareGives(s: Sys, h: nat, spans: seq<Span>)
    requires Enabled(s, Prepare(h, spans))
    ensures var s' := Apply(s, Prepare(h, spans));
            && h in s'.vals && s'.vals[h].Prepared? && OthersHold(s, s', {h})
            && s'.vals[h].Owns() == s.vals[h].Owns()
            && (forall m: Mem, x: nat :: Touches(m, TargetOf(s'.vals[h].req), x) <==>
                  exists i :: 0 <= i < |spans| && spans[i].addr <= x < spans[i].addr + spans[i].len)
  {
    var t := TargetOf(Flat(spans));
    forall m: Mem, x: nat
      ensures Touches(m, t, x) <==> exists i :: 0 <= i < |spans| && spans[i].addr <= x < spans[i].addr + spans[i].len
    {
      RangesAre(spans, x);
    }
  }

  lemma RangesAre(spans: seq<Span>, x: nat)
    ensures InRanges(RangesOf(spans), x) <==> exists i :: 0 <= i < |spans| && spans[i].addr <= x < spans[i].addr + spans[i].len
  {
    var rs := RangesOf(spans);
    if i :| 0 <= i < |spans| && spans[i].addr <= x < spans[i].addr + spans[i].len {
      assert rs[i].addr <= x < rs[i].addr + rs[i].len;
    }
    if InRanges(rs, x) {
      var i :| 0 <= i < |rs| && rs[i].addr <= x < rs[i].addr + rs[i].len;
      assert spans[i].addr <= x < spans[i].addr + spans[i].len;
    }
  }

  /** An adopted path is one the kernel would scan from its first byte, and nobody can write any more. */
  lemma AdoptGives(s: Sys, h: nat, p: OwnedPath)
    requires Enabled(s, Adopt(h, p))
    ensures var s' := Apply(s, Adopt(h, p));
            && h in s'.vals && s'.vals[h].Prepared? && OthersHold(s, s', {h})
            && s'.vals[h].Owns() == {p.store} && s'.vals[h].Exposes() == {}
            && TargetOf(s'.vals[h].req) == Scans([p.store.addr], [])
  {
  }

  /** Taking a request or a finished operation apart gives the caller all of its storage back. */
  lemma IntoPartsGives(s: Sys, h: nat)
    requires Enabled(s, IntoParts(h))
    ensures var s' := Apply(s, IntoParts(h));
            h in s'.vals && s'.vals[h].Buffers? && s'.vals[h].Exposes() == s.vals[h].Owns() && OthersHold(s, s', {h})
  {
  }

  /** A request served from a group is held without storage. */
  lemma ArmGives(s: Sys, group: nat)
    ensures var s' := Apply(s, Arm(group));
            && s.nextVal in s'.vals && s'.vals[s.nextVal].Prepared? && s'.vals[s.nextVal].Owns() == {}
            && TargetOf(s'.vals[s.nextVal].req) == Group(group) && OthersHold(s, s', {s.nextVal})
  {
  }

  /** A dropped value is gone; what it owned is freed unless it was a ticket. */
  lemma DropGives(s: Sys, h: nat)
    requires Enabled(s, Drop(h))
    ensures var s' := Apply(s, Drop(h));
            && h !in s'.vals && OthersHold(s, s', {h})
            && (if s.vals[h].Pending? then s'.live == s.live && s'.freed == s.freed
                else s'.live == s.live - s.vals[h].Owns() && s'.freed == s.freed + s.vals[h].Owns())
  {
  }

  /** A byte that is written is there, and no other has changed, whoever wrote it. */
  lemma WritesLand(s: Sys, st: Step)
    requires Enabled(s, st) && (st.AppWrite? || st.KernelWrite?)
    ensures var m := Apply(s, st).mem;
            && |m| == |s.mem| && st.x < |m| && m[st.x] == st.byte
            && forall y: nat :: y < |m| && y != st.x ==> m[y] == s.mem[y]
  {
  }

  /** In the pool too, whether the kernel fills it or its owner writes. */
  lemma PoolWritesLand(j: M.Joint, st: M.Step)
    requires j.m.head <= |j.m.posted| && M.Enabled(j, st) && (st.Fill? || st.Write?)
    ensures M.At(M.Apply(j, st).p.mem, M.Start(j, st.slot), st.off) == st.byte
  {
  }

  /** A dropped pool is freed, its owner gone, and the kernel left with no buffer. */
  lemma DropPoolFrees(j: M.Joint)
    requires M.Inv(j) && M.Enabled(j, M.DropPool)
    ensures var j' := M.Apply(j, M.DropPool);
            j.pool in j'.p.freed && j.pool !in j'.p.live && j.h !in j'.p.vals && j'.m.free == multiset{} && !j'.alive
  {
  }
}

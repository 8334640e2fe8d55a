/**
 Who may change which byte: in a protocol run, a request's storage belongs, from the
 accepted push to the terminal completion, to its own SQE alone.
 */
module Stability {
  import opened Bytes
  import opened MsgRegion
  import opened Transfer
  import opened Message
  import opened Footprint
  import opened Paths
  import opened Protocol
  import opened ProtocolSteps
  import opened ProtocolRuns
  import Sendmsg
  import Recvmsg

  /** The buffers a step may write. */
  function WritesTo(s: Sys, st: Step): set<Buf>
    requires Enabled(s, st)
  {
    match st
    case PrepareMsg(_, q, _) => {q.region.store}
    case Shorten(h, _) => {s.vals[h].req.region.store}
    case AppWrite(_, b, _, _) => {b}
    case KernelWrite(r, p, _, _) => IssuedBy(s, Key(r, s.rings[r].sqes[p].userData))
    case _ => {}
  }

  function IssuedBy(s: Sys, k: Key): set<Buf> { if k in s.log then s.log[k].req.Owns() else {} }

  predicate WritesMemory(st: Step) { st.PrepareMsg? || st.Shorten? || st.AppWrite? || st.KernelWrite? }

  lemma OthersKeepMemory(s: Sys, st: Step)
    requires Enabled(s, st) && !WritesMemory(st)
    ensures Apply(s, st).mem == s.mem
  {
  }

  // ----- each write stays where it may -----

  lemma StoreOwned(s: Sys, h: nat, q: Req, slot: seq<Byte>)
    requires CanPrepareMsg(s, h, q, slot)
    ensures q.region.store in s.vals[h].Owns()
  {
    assert q.region.store in q.Owns();
  }

  lemma BuildWithin(s: Sys, h: nat, q: Req, slot: seq<Byte>)
    requires Inv(s) && CanPrepareMsg(s, h, q, slot)
    ensures SameOutside(s.mem, DoPrepareMsg(s, h, q, slot).mem, q.region.store)
    ensures q.region.store in s.vals[h].Owns()
  {
    StorageApart(s, h, q, slot);
    StoreOwned(s, h, q, slot);
    assert DoPrepareMsg(s, h, q, slot).mem == Built(s.mem, q.region, q.bufs, q.named, slot);
    BuildShows(s.mem, q.region, q.bufs, q.named, slot);
  }

  lemma ShortenWithin(s: Sys, h: nat, lens: seq<nat>)
    requires Inv(s) && CanShorten(s, h, lens)
    ensures SameOutside(s.mem, DoShorten(s, h, lens).mem, s.vals[h].req.region.store)
    ensures s.vals[h].req.region.store in s.vals[h].Owns()
  {
    var q := s.vals[h].req;
    assert q.region.store in q.Owns();
    assert s.vals[h].HoldsReq() && q.Ok(s.mem);
    OwnedApart(s, h, q);
    ShortenOk(s.mem, q, lens);
  }

  lemma KernelWithin(s: Sys, r: nat, p: nat, x: nat)
    requires Inv(s) && CanKernelWrite(s, r, p, x)
    ensures var k := Key(r, s.rings[r].sqes[p].userData);
            Active(s.rings, s.log, k) && exists b :: b in s.log[k].req.Owns() && In(b, x)
  {
    OutstandingLogged(s, r, p);
    var k := Key(r, s.rings[r].sqes[p].userData);
    WriteTouches(s.mem, s.rings[r].sqes[p].target, x);
    TouchesOwned(s.mem, s.log[k].req, x);
  }

  /** Bytes outside the buffers a step may write are as they were. */
  ghost predicate Spared(s: Sys, st: Step, x: nat)
    requires Enabled(s, st)
  {
    |Apply(s, st).mem| == |s.mem| && (x < |s.mem| ==> Apply(s, st).mem[x] == s.mem[x])
  }

  lemma StagingSpares(s: Sys, st: Step, x: nat)
    requires Inv(s) && Enabled(s, st) && (st.PrepareMsg? || st.Shorten?)
    requires forall b :: b in WritesTo(s, st) ==> !In(b, x)
    ensures Spared(s, st, x)
  {
    if st.PrepareMsg? {
      BuildWithin(s, st.h, st.req, st.slot);
      assert st.req.region.store in WritesTo(s, st);
    } else {
      ShortenWithin(s, st.h, st.lens);
      assert s.vals[st.h].req.region.store in WritesTo(s, st);
    }
  }

  lemma ByteSpares(s: Sys, st: Step, x: nat)
    requires Inv(s) && Enabled(s, st) && (st.AppWrite? || st.KernelWrite?)
    requires forall b :: b in WritesTo(s, st) ==> !In(b, x)
    ensures Spared(s, st, x)
  {
    if st.AppWrite? {
      assert st.b in WritesTo(s, st);
    } else {
      KernelWithin(s, st.ring, st.pos, st.x);
    }
  }

  lemma WritesWithin(s: Sys, st: Step, x: nat)
    requires Inv(s) && Enabled(s, st)
    requires forall b :: b in WritesTo(s, st) ==> !In(b, x)
    ensures Spared(s, st, x)
  {
    if !WritesMemory(st) {
      OthersKeepMemory(s, st);
    } else if st.PrepareMsg? || st.Shorten? {
      StagingSpares(s, st, x);
    } else {
      ByteSpares(s, st, x);
    }
  }

  // ----- and is the writer's own -----

  /** The handle whose value a step writes through. */
  predicate WritesAs(st: Step, h: nat) {
    (st.PrepareMsg? && st.h == h) || (st.Shorten? && st.h == h) || (st.AppWrite? && st.h == h)
  }

  lemma WriterOwns(s: Sys, st: Step)
    requires Inv(s) && Enabled(s, st) && (st.PrepareMsg? || st.Shorten? || st.AppWrite?)
    ensures st.h in s.vals && !s.vals[st.h].Pending? && WritesTo(s, st) <= s.vals[st.h].Owns()
  {
    if st.PrepareMsg? {
      BuildWithin(s, st.h, st.req, st.slot);
    } else if st.Shorten? {
      ShortenWithin(s, st.h, st.lens);
    } else {
      ExposedIsOwned(s.vals[st.h], st.b);
    }
  }

  lemma OverlapIsSame(s: Sys, b: Buf, c: Buf, x: nat)
    requires HeapOk(s.mem, s.live, s.freed, s.nextBuf) && b in s.live && c in s.live && In(b, x) && In(c, x)
    ensures b == c
  {
  }

  /** This step is the kernel writing through the SQE of request `k`. */
  predicate OwnWrite(s: Sys, st: Step, k: Key) {
    && st.KernelWrite? && st.ring in s.rings && st.pos < |s.rings[st.ring].sqes|
    && Key(st.ring, s.rings[st.ring].sqes[st.pos].userData) == k
  }

  /** Nothing but its own SQE writes what a request in flight owns. */
  lemma NotOfTicket(s: Sys, st: Step, k: Key, b: Buf, x: nat)
    requires Inv(s) && Enabled(s, st) && Active(s.rings, s.log, k) && !OwnWrite(s, st, k)
    requires b in s.log[k].req.Owns() && In(b, x)
    ensures Spared(s, st, x)
  {
    assert s.log[k].req.Owns() <= s.live;
    forall c | c in WritesTo(s, st)
      ensures !In(c, x)
    {
      if st.KernelWrite? {
        KernelWithin(s, st.ring, st.pos, st.x);
        var j := Key(st.ring, s.rings[st.ring].sqes[st.pos].userData);
        assert c in s.log[j].req.Owns() && s.log[j].req.Owns() <= s.live;
        assert s.log[j].req.Owns() !! s.log[k].req.Owns();
      } else {
        WriterOwns(s, st);
        assert s.vals[st.h].Owns() !! s.log[k].req.Owns() && s.vals[st.h].Owns() <= s.live;
      }
      if In(c, x) {
        OverlapIsSame(s, b, c, x);
      }
    }
    WritesWithin(s, st, x);
  }

  /** Nothing but a value itself writes what it owns, unless it is a ticket. */
  lemma NotOfHandle(s: Sys, st: Step, h: nat, b: Buf, x: nat)
    requires Inv(s) && Enabled(s, st) && h in s.vals && !s.vals[h].Pending? && !WritesAs(st, h)
    requires b in s.vals[h].Owns() && In(b, x)
    ensures Spared(s, st, x)
  {
    assert s.vals[h].Owns() <= s.live;
    forall c | c in WritesTo(s, st)
      ensures !In(c, x)
    {
      if st.KernelWrite? {
        KernelWithin(s, st.ring, st.pos, st.x);
        var j := Key(st.ring, s.rings[st.ring].sqes[st.pos].userData);
        assert c in s.log[j].req.Owns() && s.log[j].req.Owns() <= s.live;
        assert s.vals[h].Owns() !! s.log[j].req.Owns();
      } else {
        WriterOwns(s, st);
        assert s.vals[st.h].Owns() !! s.vals[h].Owns() && s.vals[st.h].Owns() <= s.live;
      }
      if In(c, x) {
        OverlapIsSame(s, b, c, x);
      }
    }
    WritesWithin(s, st, x);
  }

  // ----- while a request is in flight -----

  /** The record of a request does not change, and once finished it stays finished. */
  lemma IssuesStay(s: Sys, st: Step, k: Key)
    requires LogOk(s.rings, s.nextRing, s.log) && Enabled(s, st) && k in s.log
    ensures var s' := Apply(s, st);
            k in s'.log && s'.log[k] == s.log[k] && (Active(s'.rings, s'.log, k) ==> Active(s.rings, s.log, k))
  {
    assert Logged(s.rings, s.log, k);
    if st.Push? {
      FreshKey(s, st.ring);
    }
  }

  predicate NoOwnWrites(s: Sys, steps: seq<Step>, k: Key)
    requires Possible(s, steps)
    decreases |steps|
  {
    steps == [] || (!OwnWrite(s, steps[0], k) && NoOwnWrites(Apply(s, steps[0]), steps[1..], k))
  }

  lemma {:induction false} FinishedStays(s: Sys, steps: seq<Step>, k: Key)
    requires Inv(s) && Possible(s, steps) && k in s.log && Active(Run(s, steps).rings, Run(s, steps).log, k)
    ensures Active(s.rings, s.log, k)
    decreases |steps|
  {
    if steps != [] {
      StepKeeps(s, steps[0]);
      IssuesStay(s, steps[0], k);
      FinishedStays(Apply(s, steps[0]), steps[1..], k);
    }
  }

  /**
   From any moment a request is in flight to any later one at which it still is, through
   any interleaving, no byte of its storage changes except by the kernel writing through
   its own SQE.
   */
  lemma {:induction false} InFlightStable(s: Sys, steps: seq<Step>, k: Key, b: Buf, x: nat)
    requires Inv(s) && Possible(s, steps) && k in s.log && Active(Run(s, steps).rings, Run(s, steps).log, k)
    requires NoOwnWrites(s, steps, k) && b in s.log[k].req.Owns() && In(b, x)
    ensures var e := Run(s, steps);
            |e.mem| == |s.mem| && (x < |s.mem| ==> e.mem[x] == s.mem[x]) && k in e.log && e.log[k] == s.log[k]
    decreases |steps|
  {
    if steps != [] {
      FinishedStays(s, steps, k);
      NotOfTicket(s, steps[0], k, b, x);
      StepKeeps(s, steps[0]);
      IssuesStay(s, steps[0], k);
      InFlightStable(Apply(s, steps[0]), steps[1..], k, b, x);
    }
  }

  /** The SQE gives the kernel nothing to write: a write, a send, a bind, an open. */
  predicate ReadOnly(q: Req) {
    match q
    case Flat(spans) => forall i :: 0 <= i < |spans| ==> !spans[i].write
    case ByPath(_, spans) => forall i :: 0 <= i < |spans| ==> !spans[i].write
    case Provided(_) => true
    case Msg(_, _, recv, _) => !recv
  }

  lemma ReadOnlyIsNotWritten(s: Sys, st: Step, k: Key)
    requires Inv(s) && Enabled(s, st) && k in s.log && ReadOnly(s.log[k].req)
    ensures !OwnWrite(s, st, k)
  {
    if OwnWrite(s, st, k) {
      OutstandingLogged(s, st.ring, st.pos);
    }
  }

  lemma {:induction false} ReadOnlyRuns(s: Sys, steps: seq<Step>, k: Key)
    requires Inv(s) && Possible(s, steps) && k in s.log && ReadOnly(s.log[k].req)
    ensures NoOwnWrites(s, steps, k)
    decreases |steps|
  {
    if steps != [] {
      ReadOnlyIsNotWritten(s, steps[0], k);
      StepKeeps(s, steps[0]);
      IssuesStay(s, steps[0], k);
      ReadOnlyRuns(Apply(s, steps[0]), steps[1..], k);
    }
  }

  // ----- messages -----

  /** Everything the request owns is the same in both memories. */
  ghost predicate SameStorage(m: Mem, m': Mem, q: Req) {
    |m'| == |m| && forall b :: b in q.Owns() ==> SameOn(m, m', b.addr, b.len)
  }

  /** What is gathered depends only on what the request owns. */
  lemma GatheredSame(m: Mem, m': Mem, q: Req)
    requires q.Msg? && q.Ok(m) && SameStorage(m, m', q) && Inside(m, q.region.store)
    requires forall i :: 0 <= i < |q.bufs| ==> Inside(m, q.bufs[i])
    ensures Sendmsg.Gathered(m', q.region.hdr) == Sendmsg.Gathered(m, q.region.hdr)
  {
    assert q.region.store in q.Owns();
    var vs := VecsAt(m, q.region.vecs, q.region.count);
    ImageHeader(m, q);
    HdrSame(m, m', q.region.hdr);
    VecsSame(m, m', q.region.vecs, q.region.count);
    forall i | 0 <= i < |vs|
      ensures vs[i].base + vs[i].len <= |m| && SameOn(m, m', vs[i].base, vs[i].len)
    {
      assert VecWithin(ViewAt(m, q.region.hdr).vecs[i], q.bufs[i]);
      assert q.bufs[i] in q.bufs && q.bufs[i] in q.Owns();
    }
    GatherSame(m, m', vs);
  }

  lemma BufferStable(s: Sys, steps: seq<Step>, k: Key, b: Buf)
    requires Inv(s) && Possible(s, steps) && k in s.log && Active(Run(s, steps).rings, Run(s, steps).log, k)
    requires NoOwnWrites(s, steps, k) && b in s.log[k].req.Owns()
    ensures SameOn(s.mem, Run(s, steps).mem, b.addr, b.len)
  {
    MemLength(s, steps);
    forall x | b.addr <= x < b.addr + b.len && x < |s.mem|
      ensures Run(s, steps).mem[x] == s.mem[x]
    {
      InFlightStable(s, steps, k, b, x);
    }
  }

  lemma StorageStable(s: Sys, steps: seq<Step>, k: Key)
    requires Inv(s) && Possible(s, steps) && k in s.log && Active(Run(s, steps).rings, Run(s, steps).log, k)
    requires NoOwnWrites(s, steps, k)
    ensures SameStorage(s.mem, Run(s, steps).mem, s.log[k].req)
  {
    MemLength(s, steps);
    forall b | b in s.log[k].req.Owns()
      ensures SameOn(s.mem, Run(s, steps).mem, b.addr, b.len)
    {
      BufferStable(s, steps, k, b);
    }
  }

  lemma {:induction false} MemLength(s: Sys, steps: seq<Step>)
    requires Inv(s) && Possible(s, steps)
    ensures |Run(s, steps).mem| == |s.mem|
    decreases |steps|
  {
    if steps != [] {
      StepLength(s, steps[0]);
      StepKeeps(s, steps[0]);
      MemLength(Apply(s, steps[0]), steps[1..]);
    }
  }

  lemma StepLength(s: Sys, st: Step)
    requires Enabled(s, st)
    ensures |Apply(s, st).mem| == |s.mem|
  {
  }

  lemma IssuedInside(s: Sys, k: Key)
    requires Inv(s) && Active(s.rings, s.log, k) && s.log[k].req.Msg?
    ensures s.log[k].req.Ok(s.mem) && Inside(s.mem, s.log[k].req.region.store)
    ensures forall i :: 0 <= i < |s.log[k].req.bufs| ==> Inside(s.mem, s.log[k].req.bufs[i])
  {
    var q := s.log[k].req;
    assert q.Owns() <= s.live && q.region.store in q.Owns();
    forall i | 0 <= i < |q.bufs|
      ensures Inside(s.mem, q.bufs[i])
    {
      assert q.bufs[i] in q.bufs && q.bufs[i] in q.Owns();
    }
  }

  /**
   In every run: what the kernel gathers for a message, at any moment between the
   accepted push and the terminal completion, is what was staged when it was pushed.
   */
  lemma SendsWhatWasPushed(s0: Sys, before: seq<Step>, h: nat, r: nat, after: seq<Step>)
    requires Initial(s0) && Possible(s0, before) && CanPush(Run(s0, before), h, r)
    requires var s := Run(s0, before); !s.rings[r].Full() && s.vals[h].req.Msg? && !s.vals[h].req.recv
    requires Possible(DoPush(Run(s0, before), h, r), after)
    requires var e := Run(DoPush(Run(s0, before), h, r), after);
             Active(e.rings, e.log, Key(r, Run(s0, before).rings[r].nextId))
    ensures var s := Run(s0, before);
            var hdr := s.vals[h].req.region.hdr;
            Sendmsg.Gathered(Run(DoPush(s, h, r), after).mem, hdr) == Sendmsg.Gathered(s.mem, hdr)
  {
    InitialInv(s0);
    RunKeeps(s0, before);
    var s := Run(s0, before);
    var k := Key(r, s.rings[r].nextId);
    PushKeeps(s, h, r);
    GatherInFlight(DoPush(s, h, r), after, k);
  }

  lemma GatherInFlight(s: Sys, steps: seq<Step>, k: Key)
    requires Inv(s) && Possible(s, steps) && k in s.log && Active(Run(s, steps).rings, Run(s, steps).log, k)
    requires s.log[k].req.Msg? && !s.log[k].req.recv
    ensures var hdr := s.log[k].req.region.hdr;
            Sendmsg.Gathered(Run(s, steps).mem, hdr) == Sendmsg.Gathered(s.mem, hdr)
  {
    var q := s.log[k].req;
    ReadOnlyRuns(s, steps, k);
    FinishedStays(s, steps, k);
    assert q.region.store in q.Owns();
    StorageStable(s, steps, k);
    IssuedInside(s, k);
    GatheredSame(s.mem, Run(s, steps).mem, q);
  }

  /**
   A receive that was submitted well is still so, whatever happened meanwhile, until the
   kernel starts writing through it: what is proved of its delivery holds when it comes.
   */
  lemma StillSubmitted(s: Sys, steps: seq<Step>, k: Key, vs: seq<IoVec>)
    requires Inv(s) && Possible(s, steps) && k in s.log && Active(Run(s, steps).rings, Run(s, steps).log, k)
    requires NoOwnWrites(s, steps, k) && s.log[k].req.Msg?
    requires var q := s.log[k].req; Recvmsg.Submitted(s.mem, q.region, q.bufs, q.named, vs)
    ensures var q := s.log[k].req; Recvmsg.Submitted(Run(s, steps).mem, q.region, q.bufs, q.named, vs)
  {
    var q := s.log[k].req;
    assert q.region.store in q.Owns();
    StorageStable(s, steps, k);
    Recvmsg.SubmittedElsewhere(s.mem, Run(s, steps).mem, q.region, q.bufs, q.named, vs);
  }

  // ----- what is staged, and what is read -----

  lemma GathersShown(m: Mem, r: Region, bufs: seq<Buf>, lens: seq<nat>)
    requires |lens| == |bufs| == r.count && forall i :: 0 <= i < |bufs| ==> Inside(m, bufs[i])
    requires HdrAt(m, r.hdr).iov == r.vecs && HdrAt(m, r.hdr).iovlen == r.count
    requires VecsAt(m, r.vecs, r.count) == Clamped(bufs, lens)
    ensures Sendmsg.Gathered(m, r.hdr) == Sendmsg.Prefixes(m, bufs, lens)
  {
    Sendmsg.ClampedPrefixes(m, bufs, lens);
  }

  /** A message is prepared as all of its buffers. */
  lemma PreparedGathers(s: Sys, h: nat, q: Req, slot: seq<Byte>)
    requires Inv(s) && CanPrepareMsg(s, h, q, slot)
    ensures var m := DoPrepareMsg(s, h, q, slot).mem;
            && (forall i :: 0 <= i < |q.bufs| ==> Inside(m, q.bufs[i]))
            && Sendmsg.Gathered(m, q.region.hdr) == Sendmsg.AllOf(m, q.bufs)
  {
    var m := Built(s.mem, q.region, q.bufs, q.named, slot);
    StorageApart(s, h, q, slot);
    BuildShows(s.mem, q.region, q.bufs, q.named, slot);
    GathersShown(m, q.region, q.bufs, Whole(q.bufs));
    Sendmsg.WholePrefixes(m, q.bufs);
  }

  /** Re-lengthed, it is each buffer's asked-for prefix. */
  lemma ShortenedGathers(s: Sys, h: nat, lens: seq<nat>)
    requires Inv(s) && CanShorten(s, h, lens)
    ensures var q := s.vals[h].req;
            var m := DoShorten(s, h, lens).mem;
            && (forall i :: 0 <= i < |q.bufs| ==> Inside(m, q.bufs[i]))
            && Sendmsg.Gathered(m, q.region.hdr) == Sendmsg.Prefixes(m, q.bufs, lens)
  {
    var q := s.vals[h].req;
    var m := DoShorten(s, h, lens).mem;
    assert s.vals[h].HoldsReq() && q.Ok(s.mem);
    OwnedApart(s, h, q);
    ImageHeader(s.mem, q);
    ClampedEncodable(s.mem, q.region, q.bufs, lens);
    q.region.StampShows(s.mem, Clamped(q.bufs, lens));
    GathersShown(m, q.region, q.bufs, lens);
  }

  /** Every path of a request in flight is read as it was when it was pushed, whatever the kernel scans over. */
  lemma PathsReadAsPushed(s: Sys, steps: seq<Step>, k: Key, i: nat)
    requires Inv(s) && Possible(s, steps) && k in s.log && Active(Run(s, steps).rings, Run(s, steps).log, k)
    requires NoOwnWrites(s, steps, k) && s.log[k].req.ByPath? && i < |s.log[k].req.paths|
    ensures var p := s.log[k].req.paths[i];
            && p.Valid(s.mem) && p.store.addr <= |Run(s, steps).mem|
            && KernelReads(Run(s, steps).mem, p.store.addr) == p.AsBytes(s.mem)
  {
    var p := s.log[k].req.paths[i];
    var e := Run(s, steps);
    FinishedStays(s, steps, k);
    assert s.log[k].req.Ok(s.mem);
    assert p in s.log[k].req.paths && p.store in s.log[k].req.Owns();
    StorageStable(s, steps, k);
    assert SameOn(s.mem, e.mem, p.store.addr, p.store.len);
    assert p.Valid(e.mem) && p.AsBytes(e.mem) == p.AsBytes(s.mem);
    ScanStaysInside(e.mem, p);
  }

  /** Adding a path to a request makes the kernel scan that path too, and the ones it had, in order. */
  lemma AddPathScans(s: Sys, h: nat, o: nat)
    requires CanAddPath(s, h, o)
    ensures var s' := DoAddPath(s, h, o);
            var a, b, c := TargetOf(s.vals[h].req), TargetOf(s.vals[o].req), TargetOf(s'.vals[h].req);
            a.Scans? && b.Scans? && c.Scans? && c.starts == a.starts + b.starts && c.rs == a.rs
  {
  }

  /** Adding storage gives the kernel those ranges besides. */
  lemma AddSpansRanges(s: Sys, h: nat, o: nat, spans: seq<Span>)
    requires CanAddSpans(s, h, o, spans)
    ensures var s' := DoAddSpans(s, h, o, spans);
            var a, c := TargetOf(s.vals[h].req), TargetOf(s'.vals[h].req);
            a.Scans? && c.Scans? && c.starts == a.starts && c.rs == a.rs + RangesOf(spans)
  {
  }

  /** Submitting in one go is submitting in two. */
  lemma SubmitAdds(s: Sys, r: nat, a: nat, b: nat)
    requires CanSubmit(s, r, a + b)
    ensures CanSubmit(s, r, a) && CanSubmit(DoSubmit(s, r, a), r, b)
    ensures DoSubmit(s, r, a + b) == DoSubmit(DoSubmit(s, r, a), r, b)
  {
  }
}

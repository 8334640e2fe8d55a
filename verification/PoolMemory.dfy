/**
 The provided-buffer pool in the protocol's heap, on one of its rings: the kernel fills
 buffers it has, for requests in flight that name the group, and posts on that ring's
 queue, while arrivals are read and the pool's owner writes and recycles.
 */
module PoolMemory {
  import opened Arithmetic
  import opened Bytes
  import opened MsgRegion
  import opened Footprint
  import opened Completion
  import M = Multishot
  import P = Protocol
  import PS = ProtocolSteps
  import PR = ProtocolRuns
  import S = Stability
  import T = Transfer

  /**
   `pool` is one allocation of `entries` buffers of `size` bytes each, registered as
   buffer group `group`; handle `h` is its owner, the `BufferConsumer`, until it is
   dropped. `m` accounts for the buffers, on the history of the ring it is scoped to.
   */
  datatype Joint = Joint(p: P.Sys, m: M.Sys, alive: bool, h: nat, pool: Buf, size: nat, entries: nat, group: nat)
  {
    function R(): nat { m.scope.ring }
  }

  /** Address of the first byte of a buffer. */
  function Start(j: Joint, slot: nat): nat { j.pool.addr + j.size * slot }

  /** Buffers lie one after another from the start of the allocation, in the order of their ids. */
  lemma BuffersInOrder(j: Joint, slot: nat)
    ensures Start(j, 0) == j.pool.addr && Start(j, slot + 1) == Start(j, slot) + j.size
  {
    assert j.size * (slot + 1) == j.size * slot + j.size;
  }

  predicate InSlot(j: Joint, slot: nat, x: nat) { Start(j, slot) <= x < Start(j, slot) + j.size }

  datatype Step =
    | Proto(step: P.Step)
    | Push(g: nat)
    | Post(pos: nat, m: M.Step)
    | Reap
    | Pooled(m: M.Step)
    | Fill(pos: nat, slot: nat, off: nat, byte: Byte)
    | Write(slot: nat, off: nat, byte: Byte)
    | DropPool

  /** The step does not use the pool's owner as a buffer value; what it can do has steps of its own. */
  predicate Spares(st: P.Step, h: nat) {
    match st
    case Join(g, o) => g != h && o != h
    case Divide(g, _) => g != h
    case Prepare(g, _) => g != h
    case Adopt(g, _) => g != h
    case AddPath(g, o) => g != h && o != h
    case AddSpans(g, o, _) => g != h && o != h
    case PrepareMsg(g, _, _) => g != h
    case Shorten(g, _) => g != h
    case AppWrite(g, _, _, _) => g != h
    case IntoParts(g) => g != h
    case Drop(g) => g != h
    case _ => true
  }

  /** The step changes what the ring has accepted or posted, or how much of it was reaped. */
  predicate OnQueue(st: P.Step, r: nat) {
    (st.Push? && st.ring == r) || (st.Post? && st.ring == r) || (st.ReapEvent? && st.ring == r)
  }

  /** The completion a kernel step posts. */
  function CqeOf(st: M.Step): Cqe
    requires st.Deliver? || st.Report? || st.Foreign?
  {
    match st
    case Deliver(id, slot, len, more, sock, bufMore) => M.Carrying(M.Recv, id, slot, len, more, sock, bufMore)
    case Report(id, result, more, sock) => M.Bare(id, result, more, sock)
    case Foreign(c) => c
  }

  predicate Posts(st: M.Step) { st.Deliver? || st.Report? || st.Foreign? }

  predicate OnPool(st: M.Step) { st.RecordEvent? || st.Release? || st.Recycle? }

  predicate OffQueue(st: M.Step) { OnPool(st) || st.Arrive? || st.DropEvent? || st.Forget? }

  predicate Enabled(j: Joint, st: Step) {
    match st
    case Proto(s) => P.Enabled(j.p, s) && Spares(s, j.h) && !OnQueue(s, j.R())
    case Push(g) => P.CanPush(j.p, g, j.R())
    case Post(pos, s) =>
      && P.InFlight(j.p, j.R(), pos) && Posts(s) && M.Enabled(j.m, s)
      && CqeOf(s).userData == j.p.rings[j.R()].sqes[pos].userData
    case Reap => P.CanReap(j.p, j.R()) && j.m.head < |j.m.posted|
    case Pooled(s) => j.m.head <= |j.m.posted| && M.Enabled(j.m, s) && OffQueue(s) && (OnPool(s) ==> j.alive)
    case Fill(pos, slot, off, _) => CanFill(j, pos, slot, off)
    case Write(slot, off, _) => CanWrite(j, slot, off)
    case DropPool => j.alive && P.Holds(j.p, j.h) && j.m.held == multiset{}
  }

  /** The kernel fills a buffer it has, for a request in flight that draws from the group. */
  predicate CanFill(j: Joint, pos: nat, slot: nat, off: nat) {
    && P.InFlight(j.p, j.R(), pos) && j.p.rings[j.R()].sqes[pos].target == Group(j.group)
    && slot in j.m.free && off < j.size && Start(j, slot) + off < |j.p.mem|
  }

  /** `BufferConsumer::buffer_mut`: any buffer, whenever no arrival borrows the pool. */
  predicate CanWrite(j: Joint, slot: nat, off: nat) {
    j.alive && j.m.held == multiset{} && slot < j.entries && off < j.size && Start(j, slot) + off < |j.p.mem|
  }

  function Apply(j: Joint, st: Step): Joint
    requires j.m.head <= |j.m.posted| && Enabled(j, st)
  {
    match st
    case Proto(s) => j.(p := P.Apply(j.p, s))
    case Push(g) => j.(p := P.DoPush(j.p, g, j.R()), m := M.Apply(j.m, M.Issue(Arms(j, g))))
    case Post(pos, s) =>
      j.(p := P.DoPost(j.p, j.R(), pos, CqeOf(s).result, CqeOf(s).flags), m := M.Apply(j.m, s))
    case Reap => j.(p := P.DoReap(j.p, j.R()), m := M.DoReapEvent(j.m))
    case Pooled(s) => j.(m := M.Apply(j.m, s))
    case Fill(_, slot, off, byte) => j.(p := P.DoWrite(j.p, Start(j, slot) + off, byte))
    case Write(slot, off, byte) => j.(p := P.DoWrite(j.p, Start(j, slot) + off, byte))
    case DropPool => j.(alive := false, p := P.DoDrop(j.p, j.h), m := j.m.(free := multiset{}))
  }

  /** The push is accepted and its request draws from the group. */
  predicate Arms(j: Joint, g: nat)
    requires P.CanPush(j.p, g, j.R())
  {
    !j.p.rings[j.R()].Full() && j.p.vals[g].req == Provided(j.group)
  }

  // ----- what every step keeps -----

  ghost predicate Owner(j: Joint) {
    && P.Holds(j.p, j.h) && j.p.vals[j.h] == P.Buffers({j.pool}) && j.pool.len == j.size * j.entries
  }

  /** An SQE draws from the group exactly if its id is one of the pool's requests, armed until it is done. */
  predicate Tracked(m: M.Sys, group: nat, ring: P.Ring, pos: nat)
    requires pos < |ring.sqes|
  {
    var id := ring.sqes[pos].userData;
    && (id in m.scope.ids <==> ring.sqes[pos].target == Group(group))
    && (id in m.scope.ids ==> (id in m.armed <==> pos !in ring.done))
  }

  /** There is one queue: what the pool's accounting goes by is the ring's own history. */
  ghost predicate RingSynced(ring: P.Ring, m: M.Sys, group: nat) {
    && ring.cqes == m.posted && ring.cqHead == m.head && ring.nextId == m.nextId
    && (forall pos :: pos in ring.done ==> pos < |ring.sqes|)
    && forall pos :: 0 <= pos < |ring.sqes| ==> Tracked(m, group, ring, pos)
  }

  ghost predicate Synced(p: P.Sys, m: M.Sys, group: nat) {
    m.scope.kind == M.Recv && m.scope.ring in p.rings && RingSynced(p.rings[m.scope.ring], m, group)
  }

  /** Only buffers of the pool are with the kernel or out. */
  ghost predicate InPool(m: M.Sys, entries: nat) {
    && m.head <= |m.posted| && (forall slot :: slot in m.all ==> slot < entries)
    && (forall slot :: slot in m.free ==> slot < entries)
    && (forall k :: M.Out(m, k) > 0 ==> k.slot < entries)
  }

  ghost predicate Inv(j: Joint) {
    && P.Inv(j.p) && M.Inv(j.m) && Synced(j.p, j.m, j.group) && InPool(j.m, j.entries)
    && (j.alive ==> Owner(j)) && (!j.alive ==> j.m.free == multiset{} && j.m.held == multiset{})
  }

  lemma SlotInside(j: Joint, slot: nat, x: nat)
    requires j.pool.len == j.size * j.entries && slot < j.entries && InSlot(j, slot, x)
    ensures In(j.pool, x)
  {
    MulStep(j.size, slot, j.entries);
  }

  lemma SlotsApart(j: Joint, a: nat, b: nat, x: nat)
    requires a != b && InSlot(j, a, x)
    ensures !InSlot(j, b, x)
  {
    if a < b {
      MulStep(j.size, a, b);
    } else {
      MulStep(j.size, b, a);
    }
  }

  /** Nothing about the ring's requests or completions moved. */
  lemma SyncKept(ring: P.Ring, ring': P.Ring, m: M.Sys, m': M.Sys, group: nat)
    requires RingSynced(ring, m, group) && ring'.sqes == ring.sqes && ring'.done == ring.done
    requires ring'.cqes == m'.posted && ring'.cqHead == m'.head && ring'.nextId == m'.nextId
    requires m'.scope == m.scope && m'.armed == m.armed
    ensures RingSynced(ring', m', group)
  {
    forall pos | 0 <= pos < |ring'.sqes|
      ensures Tracked(m', group, ring', pos)
    {
      assert Tracked(m, group, ring, pos);
    }
  }

  // The protocol's side.

  predicate KeepsValues(st: P.Step) {
    st.SplitOwned? || st.Shorten? || st.AppWrite? || st.Submit? || st.KernelWrite? || st.Post?
  }

  lemma ValuesKept(s: P.Sys, st: P.Step)
    requires P.Enabled(s, st) && KeepsValues(st)
    ensures P.Apply(s, st).vals == s.vals
  {
  }

  lemma ProtoSpares(s: P.Sys, st: P.Step, h: nat)
    requires P.OwnOk(s.live, s.vals, s.nextVal) && P.Enabled(s, st) && Spares(st, h) && P.HoldsBuffers(s, h)
    ensures P.Holds(P.Apply(s, st), h) && P.Apply(s, st).vals[h] == s.vals[h]
  {
    if KeepsValues(st) {
      ValuesKept(s, st);
    }
  }

  predicate MovesRings(st: P.Step) { st.SplitOwned? || st.Push? || st.Submit? || st.Post? || st.ReapEvent? }

  lemma RingsKept(s: P.Sys, st: P.Step)
    requires P.Enabled(s, st) && !MovesRings(st)
    ensures P.Apply(s, st).rings == s.rings
  {
  }

  lemma OtherRingsMove(s: P.Sys, st: P.Step, r: nat)
    requires P.LogOk(s.rings, s.nextRing, s.log) && P.Enabled(s, st) && !OnQueue(st, r) && r in s.rings && MovesRings(st)
    ensures var s' := P.Apply(s, st);
            r in s'.rings && s'.rings[r] == s.rings[r].(head := s'.rings[r].head)
  {
  }

  /** Off its queues, a step leaves the ring alone but for how much the kernel has taken. */
  lemma RingKept(s: P.Sys, st: P.Step, r: nat)
    requires P.LogOk(s.rings, s.nextRing, s.log) && P.Enabled(s, st) && !OnQueue(st, r) && r in s.rings
    ensures var s' := P.Apply(s, st);
            r in s'.rings && s'.rings[r] == s.rings[r].(head := s'.rings[r].head)
  {
    if MovesRings(st) {
      OtherRingsMove(s, st, r);
    } else {
      RingsKept(s, st);
    }
  }

  lemma ProtoKeeps(j: Joint, st: P.Step)
    requires Inv(j) && P.Enabled(j.p, st) && Spares(st, j.h) && !OnQueue(st, j.R())
    ensures Inv(j.(p := P.Apply(j.p, st)))
  {
    var p' := P.Apply(j.p, st);
    PR.StepKeeps(j.p, st);
    RingKept(j.p, st, j.R());
    if j.alive {
      ProtoSpares(j.p, st, j.h);
    }
    SyncKept(j.p.rings[j.R()], p'.rings[j.R()], j.m, j.m, j.group);
  }

  lemma MemKeeps(j: Joint, slot: nat, off: nat, byte: Byte)
    requires Inv(j) && j.alive && slot < j.entries && off < j.size && Start(j, slot) + off < |j.p.mem|
    ensures Inv(j.(p := P.DoWrite(j.p, Start(j, slot) + off, byte)))
  {
    SlotInside(j, slot, Start(j, slot) + off);
    assert j.pool in j.p.vals[j.h].Owns();
    PS.WriteKeeps(j.p, j.p.mem[Start(j, slot) + off := byte], j.pool, j.h);
  }

  // The accounting's side.

  lemma OutStays(m: M.Sys, st: M.Step, entries: nat, k: M.Token)
    requires M.Inv(m) && InPool(m, entries) && M.Enabled(m, st)
    ensures var m' := M.Apply(m, st); M.Inv(m') && (M.Out(m', k) > 0 ==> k.slot < entries)
  {
    M.StepBalances(m, st, k);
  }

  lemma FreeStays(m: M.Sys, st: M.Step, entries: nat, slot: nat)
    requires M.Inv(m) && InPool(m, entries) && M.Enabled(m, st) && slot in M.Apply(m, st).free
    ensures slot < entries
  {
    M.FreeBalances(m, st, slot);
    FreedWasOut(m, st, slot);
  }

  /** Whatever a step of the accounting does, it moves only buffers of the pool. */
  lemma AccountKeepsPool(m: M.Sys, st: M.Step, entries: nat)
    requires M.Inv(m) && InPool(m, entries) && M.Enabled(m, st)
    ensures M.Inv(M.Apply(m, st)) && InPool(M.Apply(m, st), entries)
  {
    var m' := M.Apply(m, st);
    M.StepKeeps(m, st);
    SameAll(m, st);
    forall k | M.Out(m', k) > 0
      ensures k.slot < entries
    {
      OutStays(m, st, entries, k);
    }
    forall slot | slot in m'.free
      ensures slot < entries
    {
      FreeStays(m, st, entries, slot);
    }
  }

  lemma SameAll(m: M.Sys, st: M.Step)
    requires m.head <= |m.posted| && M.Enabled(m, st)
    ensures M.Apply(m, st).all == m.all
  {
    if st.Reap? {
      ReapSameAll(m);
    } else {
      OthersSameAll(m, st);
    }
  }

  lemma OthersSameAll(m: M.Sys, st: M.Step)
    requires m.head <= |m.posted| && M.Enabled(m, st) && !st.Reap?
    ensures M.Apply(m, st).all == m.all
  {
  }

  lemma {:induction false} ReapSameAll(m: M.Sys)
    requires m.head <= |m.posted|
    ensures M.DoReap(m).all == m.all
    decreases |m.posted| - m.head
  {
    if m.head < |m.posted| && !m.posted[m.head].Terminal() {
      ReapSameAll(M.DoSkip(m));
    }
  }

  /** What is put back was out, or is an id of the pool. */
  lemma FreedWasOut(m: M.Sys, st: M.Step, slot: nat)
    requires m.head <= |m.posted| && M.Enabled(m, st)
    requires M.Returned(m, st, M.Whole(slot)) + M.Returned(m, st, M.Kept(slot)) + M.Stray(m, st, slot) > 0
          || slot in m.free
    ensures slot in m.free || M.Out(m, M.Whole(slot)) > 0 || M.Out(m, M.Kept(slot)) > 0 || slot in m.all
  {
  }

  ghost predicate QueueSame(m: M.Sys, m': M.Sys) {
    && m'.posted == m.posted && m'.head == m.head && m'.nextId == m.nextId
    && m'.scope == m.scope && m'.armed == m.armed
  }

  lemma OnPoolSame(m: M.Sys, st: M.Step)
    requires m.head <= |m.posted| && M.Enabled(m, st) && OnPool(st)
    ensures QueueSame(m, M.Apply(m, st))
  {
  }

  lemma OffPoolSame(m: M.Sys, st: M.Step)
    requires m.head <= |m.posted| && M.Enabled(m, st) && OffQueue(st) && !OnPool(st)
    ensures QueueSame(m, M.Apply(m, st)) && M.Apply(m, st).free == m.free
    ensures m.held == multiset{} ==> M.Apply(m, st).held == multiset{}
  {
  }

  lemma PooledKeeps(j: Joint, st: M.Step)
    requires Inv(j) && M.Enabled(j.m, st) && OffQueue(st) && (OnPool(st) ==> j.alive)
    ensures Inv(j.(m := M.Apply(j.m, st)))
  {
    AccountKeepsPool(j.m, st, j.entries);
    if OnPool(st) {
      OnPoolSame(j.m, st);
    } else {
      OffPoolSame(j.m, st);
    }
    SyncKept(j.p.rings[j.R()], j.p.rings[j.R()], j.m, M.Apply(j.m, st), j.group);
  }

  // Both at once.

  lemma IdBelowNext(s: P.Sys, r: nat, pos: nat)
    requires P.LogOk(s.rings, s.nextRing, s.log) && r in s.rings && pos < |s.rings[r].sqes|
    ensures s.rings[r].sqes[pos].userData < s.rings[r].nextId
  {
    assert P.NamedBy(s.log, r, s.rings[r].sqes, pos);
    assert P.Logged(s.rings, s.log, P.Key(r, s.rings[r].sqes[pos].userData));
  }

  lemma IssueSame(m: M.Sys, arms: bool)
    requires m.head <= |m.posted|
    ensures var m' := M.Apply(m, M.Issue(arms));
            && m'.posted == m.posted && m'.head == m.head && m'.nextId == m.nextId + 1
            && m'.free == m.free && m'.held == m.held && m'.scope.kind == m.scope.kind && m'.scope.ring == m.scope.ring
            && m'.scope.ids == (if arms then m.scope.ids + {m.nextId} else m.scope.ids)
            && m'.armed == (if arms then m.armed + {m.nextId} else m.armed)
  {
  }

  /** The new SQE names the group exactly if its request does, and nothing is done at its position. */
  lemma PushTracks(j: Joint, g: nat, m': M.Sys)
    requires Synced(j.p, j.m, j.group) && P.LogOk(j.p.rings, j.p.nextRing, j.p.log) && M.Inv(j.m)
    requires P.CanPush(j.p, g, j.R()) && m' == M.Apply(j.m, M.Issue(Arms(j, g)))
    ensures Synced(P.DoPush(j.p, g, j.R()), m', j.group)
  {
    var ring, ring' := j.p.rings[j.R()], P.DoPush(j.p, g, j.R()).rings[j.R()];
    IssueSame(j.m, Arms(j, g));
    forall pos | 0 <= pos < |ring'.sqes|
      ensures Tracked(m', j.group, ring', pos)
    {
      if pos < |ring.sqes| {
        assert Tracked(j.m, j.group, ring, pos);
        IdBelowNext(j.p, j.R(), pos);
      } else {
        assert TargetOf(j.p.vals[g].req) == Group(j.group) <==> j.p.vals[g].req == Provided(j.group);
      }
    }
  }

  lemma PushSpares(s: P.Sys, g: nat, r: nat, h: nat)
    requires P.CanPush(s, g, r) && P.HoldsBuffers(s, h)
    ensures P.Holds(P.DoPush(s, g, r), h) && P.DoPush(s, g, r).vals[h] == s.vals[h]
  {
  }

  lemma PushKeeps(j: Joint, st: Step)
    requires Inv(j) && st.Push? && Enabled(j, st)
    ensures Inv(Apply(j, st))
  {
    var m' := M.Apply(j.m, M.Issue(Arms(j, st.g)));
    PS.PushKeeps(j.p, st.g, j.R());
    AccountKeepsPool(j.m, M.Issue(Arms(j, st.g)), j.entries);
    PushTracks(j, st.g, m');
    IssueSame(j.m, Arms(j, st.g));
    if j.alive {
      PushSpares(j.p, st.g, j.R(), j.h);
    }
  }

  lemma PostedSame(m: M.Sys, st: M.Step)
    requires m.head <= |m.posted| && m.scope.kind == M.Recv && M.Enabled(m, st) && Posts(st)
    ensures var m' := M.Apply(m, st);
            && m'.posted == m.posted + [CqeOf(st)] && m'.head == m.head && m'.nextId == m.nextId
            && m'.scope == m.scope && m'.held == m.held && (m.free == multiset{} ==> m'.free == multiset{})
            && m'.armed == (if CqeOf(st).Terminal() then m.armed - {CqeOf(st).userData} else m.armed)
  {
  }

  lemma PostTracks(j: Joint, pos: nat, st: M.Step, m': M.Sys)
    requires Synced(j.p, j.m, j.group) && P.LogOk(j.p.rings, j.p.nextRing, j.p.log) && M.Inv(j.m)
    requires Enabled(j, Post(pos, st)) && m' == M.Apply(j.m, st)
    ensures Synced(P.DoPost(j.p, j.R(), pos, CqeOf(st).result, CqeOf(st).flags), m', j.group)
  {
    var ring := j.p.rings[j.R()];
    var ring' := P.DoPost(j.p, j.R(), pos, CqeOf(st).result, CqeOf(st).flags).rings[j.R()];
    PostedSame(j.m, st);
    forall q | 0 <= q < |ring'.sqes|
      ensures Tracked(m', j.group, ring', q)
    {
      assert Tracked(j.m, j.group, ring, q);
      if ring.sqes[q].userData == ring.sqes[pos].userData {
        assert P.NamedBy(j.p.log, j.R(), ring.sqes, q) && P.NamedBy(j.p.log, j.R(), ring.sqes, pos);
        assert q == pos;
      }
    }
  }

  lemma PostKeeps(j: Joint, st: Step)
    requires Inv(j) && st.Post? && Enabled(j, st)
    ensures Inv(Apply(j, st))
  {
    var c := CqeOf(st.m);
    PS.PostKeeps(j.p, j.R(), st.pos, c.result, c.flags);
    AccountKeepsPool(j.m, st.m, j.entries);
    PostedSame(j.m, st.m);
    PostTracks(j, st.pos, st.m, M.Apply(j.m, st.m));
  }

  lemma ReapSpares(s: P.Sys, r: nat, h: nat)
    requires P.CanReap(s, r) && P.OwnOk(s.live, s.vals, s.nextVal) && P.HoldsBuffers(s, h)
    ensures P.Holds(P.DoReap(s, r), h) && P.DoReap(s, r).vals[h] == s.vals[h]
  {
  }

  lemma ReapSync(j: Joint)
    requires Synced(j.p, j.m, j.group) && P.CanReap(j.p, j.R()) && j.m.head < |j.m.posted|
    ensures Synced(P.DoReap(j.p, j.R()), M.DoReapEvent(j.m), j.group)
  {
    var p' := P.DoReap(j.p, j.R());
    SyncKept(j.p.rings[j.R()], p'.rings[j.R()], j.m, M.DoReapEvent(j.m), j.group);
  }

  lemma ReapKeeps(j: Joint, st: Step)
    requires Inv(j) && st.Reap? && Enabled(j, st)
    ensures Inv(Apply(j, st))
  {
    PS.ReapKeeps(j.p, j.R());
    AccountKeepsPool(j.m, M.ReapEvent, j.entries);
    ReapSync(j);
    if j.alive {
      ReapSpares(j.p, j.R(), j.h);
    }
  }

  lemma NothingLeft(m: M.Sys, entries: nat)
    requires M.Inv(m) && InPool(m, entries)
    ensures M.Inv(m.(free := multiset{})) && InPool(m.(free := multiset{}), entries)
  {
    var m' := m.(free := multiset{});
    M.EventsKeep(m, m');
    forall k | M.Out(m', k) > 0
      ensures k.slot < entries
    {
      assert M.Out(m, k) == M.Out(m', k);
    }
  }

  lemma DropPoolKeeps(j: Joint, st: Step)
    requires Inv(j) && st.DropPool? && Enabled(j, st)
    ensures Inv(Apply(j, st))
  {
    PS.DropKeeps(j.p, j.h);
    NothingLeft(j.m, j.entries);
    SyncKept(j.p.rings[j.R()], j.p.rings[j.R()], j.m, j.m.(free := multiset{}), j.group);
  }

  lemma FillKeeps(j: Joint, st: Step)
    requires Inv(j) && (st.Fill? || st.Write?) && Enabled(j, st)
    ensures Inv(Apply(j, st))
  {
    MemKeeps(j, st.slot, st.off, st.byte);
  }

  lemma SideKeeps(j: Joint, st: Step)
    requires Inv(j) && (st.Proto? || st.Pooled?) && Enabled(j, st)
    ensures Inv(Apply(j, st))
  {
    if st.Proto? {
      ProtoKeeps(j, st.step);
    } else {
      PooledKeeps(j, st.m);
    }
  }

  lemma StepKeeps(j: Joint, st: Step)
    requires Inv(j) && Enabled(j, st)
    ensures Inv(Apply(j, st))
  {
    if st.Proto? || st.Pooled? {
      SideKeeps(j, st);
    } else if st.Push? {
      PushKeeps(j, st);
    } else if st.Post? {
      PostKeeps(j, st);
    } else if st.Reap? {
      ReapKeeps(j, st);
    } else if st.DropPool? {
      DropPoolKeeps(j, st);
    } else {
      FillKeeps(j, st);
    }
  }

  // ----- what may write a buffer -----

  /** The step changes the byte at address `x`. */
  ghost predicate Writes(j: Joint, st: Step, x: nat)
    requires j.m.head <= |j.m.posted| && Enabled(j, st)
  {
    var mem' := Apply(j, st).p.mem;
    x < |j.p.mem| && x < |mem'| && mem'[x] != j.p.mem[x]
  }

  predicate InsideProtocol(st: Step) { st.Proto? || st.Push? || st.Post? || st.Reap? || st.DropPool? }

  /** The protocol's steps that a joint step carries out. */
  function ProtocolStep(j: Joint, st: Step): P.Step
    requires InsideProtocol(st) && Enabled(j, st)
  {
    match st
    case Proto(s) => s
    case Push(g) => P.Push(g, j.R())
    case Post(pos, s) => P.Post(j.R(), pos, CqeOf(s).result, CqeOf(s).flags)
    case Reap => P.ReapEvent(j.R())
    case DropPool => P.Drop(j.h)
  }

  lemma IsProtocolStep(j: Joint, st: Step)
    requires j.m.head <= |j.m.posted| && InsideProtocol(st) && Enabled(j, st)
    ensures P.Enabled(j.p, ProtocolStep(j, st)) && Apply(j, st).p == P.Apply(j.p, ProtocolStep(j, st))
    ensures P.Holds(j.p, j.h) && j.p.vals[j.h].Buffers? ==> !S.WritesAs(ProtocolStep(j, st), j.h)
  {
  }

  /** No step of the protocol, the kernel's writes through SQEs included, writes the pool. */
  lemma ProtocolLeavesPool(j: Joint, st: Step, x: nat)
    requires Inv(j) && j.alive && InsideProtocol(st) && Enabled(j, st) && In(j.pool, x)
    ensures !Writes(j, st, x)
  {
    IsProtocolStep(j, st);
    assert j.pool in j.p.vals[j.h].Owns();
    S.NotOfHandle(j.p, ProtocolStep(j, st), j.h, j.pool, x);
  }

  /** So a buffer is written by the kernel filling it or by the pool's owner, and by nothing else. */
  lemma WritersOfSlot(j: Joint, st: Step, slot: nat, x: nat)
    requires Inv(j) && j.alive && slot < j.entries && Enabled(j, st) && InSlot(j, slot, x) && Writes(j, st, x)
    ensures (st.Fill? || st.Write?) && st.slot == slot && x == Start(j, slot) + st.off
  {
    SlotInside(j, slot, x);
    if InsideProtocol(st) {
      ProtocolLeavesPool(j, st, x);
    } else if st.Fill? || st.Write? {
      if st.slot != slot {
        SlotsApart(j, slot, st.slot, x);
      }
    }
  }

  /**
   While an arrival lives, only one thing can change its bytes: the kernel filling that
   buffer; and it can exactly while it has it.
   */
  lemma OnlyFillHitsArrival(j: Joint, k: M.Token, st: Step, x: nat)
    requires Inv(j) && k in j.m.held && Enabled(j, st) && InSlot(j, k.slot, x) && Writes(j, st, x)
    ensures st.Fill? && st.slot == k.slot && k.slot in j.m.free
  {
    assert M.Out(j.m, k) > 0;
    WritersOfSlot(j, st, k.slot, x);
  }

  lemma FillableIff(j: Joint, pos: nat, slot: nat)
    requires Inv(j) && j.alive && P.InFlight(j.p, j.R(), pos) && j.p.rings[j.R()].sqes[pos].target == Group(j.group)
    requires slot < j.entries && 0 < j.size
    ensures CanFill(j, pos, slot, 0) <==> slot in j.m.free
  {
    SlotInside(j, slot, Start(j, slot));
    assert j.pool in j.p.vals[j.h].Owns();
  }

  // ----- whole runs -----

  ghost predicate Possible(j: Joint, steps: seq<Step>)
    decreases |steps|
  {
    steps == [] ||
    (j.m.head <= |j.m.posted| && Enabled(j, steps[0]) && Possible(Apply(j, steps[0]), steps[1..]))
  }

  function Run(j: Joint, steps: seq<Step>): Joint
    requires Possible(j, steps)
    decreases |steps|
  {
    if steps == [] then j else Run(Apply(j, steps[0]), steps[1..])
  }

  lemma {:induction false} RunKeeps(j: Joint, steps: seq<Step>)
    requires Inv(j) && Possible(j, steps)
    ensures Inv(Run(j, steps))
    decreases |steps|
  {
    if steps != [] {
      StepKeeps(j, steps[0]);
      RunKeeps(Apply(j, steps[0]), steps[1..]);
    }
  }

  /** A pool just registered in some reachable state, its group named by no SQE yet. */
  ghost predicate Registered(j: Joint) {
    && P.Inv(j.p) && Owner(j) && j.alive && Synced(j.p, j.m, j.group) && M.Inv(j.m) && j.m.scope.ids == {}
    && j.m.events == [] && j.m.held == multiset{} && j.m.lost == multiset{}
    && j.m.all == T.Interval(0, j.entries) && j.m.free == multiset(j.m.all)
  }

  /** The accounting a new pool starts with, on a ring with any history. */
  function NewAccount(ring: P.Ring, r: nat, entries: nat): M.Sys {
    M.Sys(M.Scope(M.Recv, r, {}), T.Interval(0, entries), ring.nextId, {}, multiset(T.Interval(0, entries)),
          ring.cqes, ring.cqHead, [], multiset{}, multiset{})
  }

  lemma NewAccountInv(s: P.Sys, r: nat, entries: nat)
    requires P.LogOk(s.rings, s.nextRing, s.log) && P.CqOk(s.rings, s.log) && r in s.rings
    ensures M.Inv(NewAccount(s.rings[r], r, entries))
  {
    var ring := s.rings[r];
    var m := NewAccount(ring, r, entries);
    assert P.RingCqOk(r, ring, s.log);
    forall i | 0 <= i < |m.posted|
      ensures M.PostedOk(m, i)
    {
      assert P.CqeOk(r, ring, s.log, ring.cqes[i]);
      assert P.Logged(s.rings, s.log, P.Key(r, ring.cqes[i].userData));
    }
  }

  /** Storage of the right length can be registered in any reachable state, under a group no SQE names yet. */
  lemma PoolsCanBeRegistered(s0: P.Sys, steps: seq<P.Step>, h: nat, b: Buf, r: nat, size: nat, entries: nat, group: nat)
    requires P.Initial(s0) && PR.Possible(s0, steps)
    requires var s := PR.Run(s0, steps);
             && P.Holds(s, h) && s.vals[h] == P.Buffers({b}) && b.len == size * entries && r in s.rings
             && forall pos :: 0 <= pos < |s.rings[r].sqes| ==> s.rings[r].sqes[pos].target != Group(group)
    ensures var s := PR.Run(s0, steps);
            Registered(Joint(s, NewAccount(s.rings[r], r, entries), true, h, b, size, entries, group))
  {
    var s := PR.Run(s0, steps);
    P.InitialInv(s0);
    PR.RunKeeps(s0, steps);
    PR.DoneRun(s0, steps);
    NewAccountInv(s, r, entries);
    var j := Joint(s, NewAccount(s.rings[r], r, entries), true, h, b, size, entries, group);
    forall pos | 0 <= pos < |s.rings[r].sqes|
      ensures Tracked(j.m, group, s.rings[r], pos)
    {
      assert s.rings[r].sqes[pos].target != Group(group);
    }
  }

  lemma RegisteredInv(j: Joint)
    requires Registered(j)
    ensures Inv(j) && OneEach(j.m)
  {
    forall k
      ensures M.Out(j.m, k) == 0
    {
      NoneOut(j.m, M.Unreaped(j.m), k);
    }
  }

  lemma {:induction false} NoneOut(m: M.Sys, es: seq<Event>, k: M.Token)
    requires m.scope.ids == {}
    ensures m.scope.Count(es, k) == 0
  {
    if es != [] {
      NoneOut(m, es[1..], k);
    }
  }

  /** Every buffer is the kernel's or out whole, never both. */
  ghost predicate OneEach(m: M.Sys) {
    && m.head <= |m.posted|
    && forall slot: nat :: m.free[slot] + M.Out(m, M.Whole(slot)) <= 1
  }

  /** The step gives the kernel no buffer that is elsewhere. */
  predicate Proper(j: Joint, st: Step) {
    st.Pooled? ==> !(st.m.Release? && st.m.token.kept) && !(st.m.Recycle? && M.Strays(j.m, st.m.slot))
  }

  predicate Accounts(st: Step) { st.Push? || st.Post? || st.Reap? || st.Pooled? }

  function AccountOf(j: Joint, st: Step): M.Step
    requires Enabled(j, st) && Accounts(st)
  {
    match st
    case Push(g) => M.Issue(Arms(j, g))
    case Post(_, s) => s
    case Reap => M.ReapEvent
    case Pooled(s) => s
  }

  lemma IsAccountStep(j: Joint, st: Step)
    requires j.m.head <= |j.m.posted| && Enabled(j, st) && Accounts(st)
    ensures M.Enabled(j.m, AccountOf(j, st)) && Apply(j, st).m == M.Apply(j.m, AccountOf(j, st))
  {
  }

  lemma ProperAccount(m: M.Sys, st: M.Step, slot: nat)
    requires M.Inv(m) && M.Enabled(m, st) && OneEach(m)
    requires !(st.Release? && st.token.kept) && !(st.Recycle? && M.Strays(m, st.slot))
    ensures var m' := M.Apply(m, st); M.Inv(m') && m'.free[slot] + M.Out(m', M.Whole(slot)) <= 1
  {
    assert m.free[slot] + M.Out(m, M.Whole(slot)) <= 1;
    M.StepBalances(m, st, M.Whole(slot));
    M.FreeBalances(m, st, slot);
  }

  lemma ProperSlot(j: Joint, st: Step, slot: nat)
    requires Inv(j) && OneEach(j.m) && Enabled(j, st) && Proper(j, st)
    ensures var m' := Apply(j, st).m; m'.head <= |m'.posted| && m'.free[slot] + M.Out(m', M.Whole(slot)) <= 1
  {
    if Accounts(st) {
      IsAccountStep(j, st);
      ProperAccount(j.m, AccountOf(j, st), slot);
    } else {
      OutOffAccount(j, st, slot);
      assert j.m.free[slot] + M.Out(j.m, M.Whole(slot)) <= 1;
    }
  }

  lemma ProperKeeps(j: Joint, st: Step)
    requires Inv(j) && OneEach(j.m) && Enabled(j, st) && Proper(j, st)
    ensures Inv(Apply(j, st)) && OneEach(Apply(j, st).m)
  {
    StepKeeps(j, st);
    forall slot: nat
      ensures Apply(j, st).m.free[slot] + M.Out(Apply(j, st).m, M.Whole(slot)) <= 1
    {
      ProperSlot(j, st, slot);
    }
  }

  lemma OutOffAccount(j: Joint, st: Step, slot: nat)
    requires Inv(j) && Enabled(j, st) && !Accounts(st)
    ensures var m' := Apply(j, st).m;
            && m'.head <= |m'.posted| && M.Out(m', M.Whole(slot)) == M.Out(j.m, M.Whole(slot))
            && m'.free[slot] <= j.m.free[slot]
  {
  }

  predicate AllProper(j: Joint, steps: seq<Step>)
    requires Possible(j, steps)
    decreases |steps|
  {
    steps == [] || (Proper(j, steps[0]) && AllProper(Apply(j, steps[0]), steps[1..]))
  }

  lemma {:induction false} ProperRunKeeps(j: Joint, steps: seq<Step>)
    requires Inv(j) && OneEach(j.m) && Possible(j, steps) && AllProper(j, steps)
    ensures Inv(Run(j, steps)) && OneEach(Run(j, steps).m)
    decreases |steps|
  {
    if steps != [] {
      ProperKeeps(j, steps[0]);
      ProperRunKeeps(Apply(j, steps[0]), steps[1..]);
    }
  }

  /**
   In every run from registration on that recycles only in turn, no step of anyone's
   writes a byte of a buffer whose arrival is live: not the kernel through any SQE, not
   the kernel filling the pool, not the application.
   */
  lemma NoWriteHitsArrival(j0: Joint, steps: seq<Step>, slot: nat, st: Step, x: nat)
    requires Registered(j0) && Possible(j0, steps) && AllProper(j0, steps)
    requires var j := Run(j0, steps);
             j.m.head <= |j.m.posted| && M.Whole(slot) in j.m.held && Enabled(j, st) && InSlot(j, slot, x)
    ensures !Writes(Run(j0, steps), st, x)
  {
    var j := Run(j0, steps);
    RegisteredInv(j0);
    ProperRunKeeps(j0, steps);
    assert j.m.free[slot] + M.Out(j.m, M.Whole(slot)) <= 1;
    if Writes(j, st, x) {
      OnlyFillHitsArrival(j, M.Whole(slot), st, x);
    }
  }

  // ----- the bytes an arrival shows -----

  /** The bytes `Arrival::bytes` gives for a buffer and a length; none if the pool cannot honour them. */
  function ArrivalBytes(j: Joint, slot: nat, len: nat): seq<Byte> {
    if slot < j.entries && len <= j.size then Load(j.p.mem, Start(j, slot), len) else []
  }

  /** One byte of a buffer. */
  function At(m: Mem, start: nat, off: nat): Byte { if start + off < |m| then m[start + off] else 0 }

  /** What the owner's own writes in a run make of one byte of a buffer. */
  function Rewritten(steps: seq<Step>, slot: nat, off: nat, byte: Byte): Byte {
    if steps == [] then byte
    else
      var now := if Hits(steps[0], slot, off) then steps[0].byte else byte;
      Rewritten(steps[1..], slot, off, now)
  }

  /** The delivery is not undone, nor the pool dropped, in this run. */
  predicate StaysOut(steps: seq<Step>, slot: nat) {
    forall i :: 0 <= i < |steps| ==> !Undoes(steps[i], slot)
  }

  predicate Undoes(st: Step, slot: nat) {
    || st.DropPool? || st == Pooled(M.Release(M.Whole(slot))) || st == Pooled(M.Recycle(slot))
  }

  lemma TailStaysOut(steps: seq<Step>, slot: nat)
    requires steps != [] && StaysOut(steps, slot)
    ensures !Undoes(steps[0], slot) && StaysOut(steps[1..], slot)
  {
    assert forall i :: 0 <= i < |steps| - 1 ==> steps[1..][i] == steps[i + 1];
  }

  lemma SameShape(j: Joint, st: Step)
    requires j.m.head <= |j.m.posted| && Enabled(j, st)
    ensures var j' := Apply(j, st);
            && j'.entries == j.entries && j'.size == j.size && j'.pool == j.pool && j'.h == j.h
            && (!st.DropPool? ==> j'.alive == j.alive)
  {
  }

  lemma MemKept(j: Joint, st: Step)
    requires j.m.head <= |j.m.posted| && Enabled(j, st)
    ensures |Apply(j, st).p.mem| == |j.p.mem|
  {
    if InsideProtocol(st) {
      IsProtocolStep(j, st);
      S.StepLength(j.p, ProtocolStep(j, st));
    }
  }

  lemma StillOut(j: Joint, st: Step, slot: nat)
    requires Inv(j) && Enabled(j, st) && M.Out(j.m, M.Whole(slot)) > 0 && !Undoes(st, slot)
    ensures var m' := Apply(j, st).m; m'.head <= |m'.posted| && M.Out(m', M.Whole(slot)) > 0
  {
    if Accounts(st) {
      IsAccountStep(j, st);
      M.StepBalances(j.m, AccountOf(j, st), M.Whole(slot));
    } else {
      OutOffAccount(j, st, slot);
    }
  }

  /** The pool's owner writes this byte. */
  predicate Hits(st: Step, slot: nat, off: nat) { st.Write? && st.slot == slot && st.off == off }

  lemma OwnerWriteLands(j: Joint, st: Step, slot: nat, off: nat)
    requires j.m.head <= |j.m.posted| && Enabled(j, st) && Hits(st, slot, off)
    ensures At(Apply(j, st).p.mem, Start(j, slot), off) == st.byte
  {
  }

  lemma NothingElseHits(j: Joint, st: Step, slot: nat, off: nat)
    requires Inv(j) && OneEach(j.m) && j.alive && Enabled(j, st) && !Hits(st, slot, off)
    requires slot < j.entries && off < j.size && M.Out(j.m, M.Whole(slot)) > 0
    ensures !Writes(j, st, Start(j, slot) + off)
  {
    if Writes(j, st, Start(j, slot) + off) {
      WritersOfSlot(j, st, slot, Start(j, slot) + off);
      NotFree(j.m, slot);
    }
  }

  lemma NotFree(m: M.Sys, slot: nat)
    requires OneEach(m) && M.Out(m, M.Whole(slot)) > 0
    ensures slot !in m.free
  {
    assert m.free[slot] + M.Out(m, M.Whole(slot)) <= 1;
  }

  /** One byte of a buffer that is out whole, one step on. */
  lemma ByteAfter(j: Joint, st: Step, slot: nat, off: nat)
    requires Inv(j) && OneEach(j.m) && j.alive && Enabled(j, st)
    requires slot < j.entries && off < j.size && M.Out(j.m, M.Whole(slot)) > 0
    ensures At(Apply(j, st).p.mem, Start(j, slot), off)
         == if Hits(st, slot, off) then st.byte else At(j.p.mem, Start(j, slot), off)
  {
    if Hits(st, slot, off) {
      OwnerWriteLands(j, st, slot, off);
    } else {
      NothingElseHits(j, st, slot, off);
      MemKept(j, st);
    }
  }

  /** What the next step needs of a state in which a buffer is out whole. */
  ghost predicate OutWhole(j: Joint, slot: nat) {
    Inv(j) && OneEach(j.m) && j.alive && slot < j.entries && M.Out(j.m, M.Whole(slot)) > 0
  }

  lemma OutWholeKept(j: Joint, st: Step, slot: nat)
    requires OutWhole(j, slot) && Enabled(j, st) && Proper(j, st) && !Undoes(st, slot)
    ensures OutWhole(Apply(j, st), slot)
  {
    SameShape(j, st);
    ProperKeeps(j, st);
    StillOut(j, st, slot);
  }

  lemma SameStart(j: Joint, st: Step, slot: nat)
    requires j.m.head <= |j.m.posted| && Enabled(j, st)
    ensures Start(Apply(j, st), slot) == Start(j, slot) && Apply(j, st).size == j.size
  {
    SameShape(j, st);
  }

  /**
   From the completion that hands a buffer over whole on, through any interleaving that
   recycles only in turn, each of its bytes is what it was, or what the pool's owner last
   wrote there itself.
   */
  lemma {:induction false} ByteInRun(j: Joint, steps: seq<Step>, slot: nat, off: nat)
    requires OutWhole(j, slot) && Possible(j, steps) && AllProper(j, steps) && StaysOut(steps, slot) && off < j.size
    ensures At(Run(j, steps).p.mem, Start(j, slot), off) == Rewritten(steps, slot, off, At(j.p.mem, Start(j, slot), off))
    decreases |steps|
  {
    if steps != [] {
      TailStaysOut(steps, slot);
      SameStart(j, steps[0], slot);
      ByteAfter(j, steps[0], slot, off);
      OutWholeKept(j, steps[0], slot);
      ByteInRun(Apply(j, steps[0]), steps[1..], slot, off);
    }
  }

  lemma {:induction false} RunShape(j: Joint, steps: seq<Step>)
    requires Inv(j) && Possible(j, steps)
    ensures var e := Run(j, steps);
            |e.p.mem| == |j.p.mem| && e.entries == j.entries && e.size == j.size && e.pool == j.pool
    decreases |steps|
  {
    if steps != [] {
      SameShape(j, steps[0]);
      MemKept(j, steps[0]);
      StepKeeps(j, steps[0]);
      RunShape(Apply(j, steps[0]), steps[1..]);
    }
  }

  /**
   So an arrival shows what the kernel delivered exactly when the owner, between the
   completion and then, has left in every byte what was there.
   */
  lemma DeliveredBytesIff(j: Joint, steps: seq<Step>, slot: nat, len: nat)
    requires OutWhole(j, slot) && Possible(j, steps) && AllProper(j, steps) && StaysOut(steps, slot) && len <= j.size
    ensures ArrivalBytes(Run(j, steps), slot, len) == ArrivalBytes(j, slot, len)
       <==> forall off: nat :: off < len ==>
              Rewritten(steps, slot, off, At(j.p.mem, Start(j, slot), off)) == At(j.p.mem, Start(j, slot), off)
  {
    var e := Run(j, steps);
    RunShape(j, steps);
    SameArrival(j, e, slot, len);
    forall off: nat | off < len
      ensures At(e.p.mem, Start(j, slot), off) == Rewritten(steps, slot, off, At(j.p.mem, Start(j, slot), off))
    {
      ByteInRun(j, steps, slot, off);
    }
  }

  /** Two states with the same pool show the same bytes exactly if each byte is the same. */
  lemma SameArrival(j: Joint, e: Joint, slot: nat, len: nat)
    requires Inv(j) && j.alive && slot < j.entries && len <= j.size
    requires |e.p.mem| == |j.p.mem| && e.entries == j.entries && e.size == j.size && e.pool == j.pool
    ensures ArrivalBytes(e, slot, len) == ArrivalBytes(j, slot, len)
       <==> forall off: nat :: off < len ==> At(e.p.mem, Start(j, slot), off) == At(j.p.mem, Start(j, slot), off)
  {
    SlotInMemory(j, slot);
    SameLoads(j.p.mem, e.p.mem, Start(j, slot), len);
  }

  lemma SlotInMemory(j: Joint, slot: nat)
    requires Inv(j) && j.alive && slot < j.entries
    ensures Start(j, slot) + j.size <= |j.p.mem|
  {
    MulStep(j.size, slot, j.entries);
    assert j.pool in j.p.vals[j.h].Owns() && j.pool in j.p.live;
  }

  lemma SameLoads(m: Mem, m': Mem, a: nat, len: nat)
    requires |m'| == |m| && a + len <= |m|
    ensures Load(m', a, len) == Load(m, a, len) <==> forall off: nat :: off < len ==> At(m', a, off) == At(m, a, off)
  {
    var l, l' := Load(m, a, len), Load(m', a, len);
    assert forall off: nat :: off < len ==> At(m, a, off) == l[off] && At(m', a, off) == l'[off];
    if forall off: nat :: off < len ==> At(m', a, off) == At(m, a, off) {
      forall off | 0 <= off < len
        ensures l'[off] == l[off]
      {
        assert At(m', a, off) == At(m, a, off);
      }
      assert l' == l;
    }
  }

  /** Without such writes, in particular while an arrival is live, it shows what was delivered. */
  predicate OwnerSpares(steps: seq<Step>, slot: nat) {
    forall i :: 0 <= i < |steps| ==> !(steps[i].Write? && steps[i].slot == slot)
  }

  lemma {:induction false} NotRewritten(steps: seq<Step>, slot: nat, off: nat, byte: Byte)
    requires OwnerSpares(steps, slot)
    ensures Rewritten(steps, slot, off, byte) == byte
  {
    if steps != [] {
      assert forall i :: 0 <= i < |steps| - 1 ==> steps[1..][i] == steps[i + 1];
      NotRewritten(steps[1..], slot, off, byte);
    }
  }

  lemma ArrivalsStable(j: Joint, steps: seq<Step>, slot: nat, len: nat)
    requires OutWhole(j, slot) && Possible(j, steps) && AllProper(j, steps) && StaysOut(steps, slot) && len <= j.size
    requires OwnerSpares(steps, slot)
    ensures ArrivalBytes(Run(j, steps), slot, len) == ArrivalBytes(j, slot, len)
  {
    forall off: nat | off < len
      ensures Rewritten(steps, slot, off, At(j.p.mem, Start(j, slot), off)) == At(j.p.mem, Start(j, slot), off)
    {
      NotRewritten(steps, slot, off, At(j.p.mem, Start(j, slot), off));
    }
    DeliveredBytesIff(j, steps, slot, len);
  }

  /** From `record` to the drop the owner cannot write at all: the arrival borrows the pool. */
  lemma {:induction false} RecordedIsStable(j: Joint, steps: seq<Step>, slot: nat, len: nat)
    requires Inv(j) && OneEach(j.m) && Possible(j, steps) && AllProper(j, steps)
    requires M.Whole(slot) in j.m.held && len <= j.size && StaysHeld(j, steps, slot)
    ensures ArrivalBytes(Run(j, steps), slot, len) == ArrivalBytes(j, slot, len)
    decreases |steps|
  {
    if steps != [] {
      assert M.Out(j.m, M.Whole(slot)) > 0;
      ProperKeeps(j, steps[0]);
      SameShape(j, steps[0]);
      HeldBytes(j, steps[0], slot, len);
      RecordedIsStable(Apply(j, steps[0]), steps[1..], slot, len);
    }
  }

  /** The arrival is live throughout. */
  ghost predicate StaysHeld(j: Joint, steps: seq<Step>, slot: nat)
    requires Possible(j, steps)
    decreases |steps|
  {
    M.Whole(slot) in j.m.held && (steps == [] || StaysHeld(Apply(j, steps[0]), steps[1..], slot))
  }

  lemma HeldByte(j: Joint, st: Step, slot: nat, off: nat)
    requires Inv(j) && OneEach(j.m) && Enabled(j, st) && M.Whole(slot) in j.m.held && off < j.size
    ensures slot < j.entries && At(Apply(j, st).p.mem, Start(j, slot), off) == At(j.p.mem, Start(j, slot), off)
  {
    assert M.Out(j.m, M.Whole(slot)) > 0;
    ByteAfter(j, st, slot, off);
  }

  lemma HeldBytes(j: Joint, st: Step, slot: nat, len: nat)
    requires Inv(j) && OneEach(j.m) && Enabled(j, st) && M.Whole(slot) in j.m.held && len <= j.size
    ensures ArrivalBytes(Apply(j, st), slot, len) == ArrivalBytes(j, slot, len)
  {
    assert M.Out(j.m, M.Whole(slot)) > 0;
    SameShape(j, st);
    MemKept(j, st);
    SameArrival(j, Apply(j, st), slot, len);
    forall off: nat | off < len
      ensures At(Apply(j, st).p.mem, Start(j, slot), off) == At(j.p.mem, Start(j, slot), off)
    {
      HeldByte(j, st, slot, off);
    }
  }

  // ----- where it fails -----

  /** Before it is recorded, safe code can overwrite a delivered buffer: one write, and other bytes are read. */
  lemma OverwrittenBeforeRecord(j: Joint, slot: nat, byte: Byte)
    requires Inv(j) && j.alive && j.m.held == multiset{} && slot < j.entries && 0 < j.size
    requires Start(j, slot) < |j.p.mem| && j.p.mem[Start(j, slot)] != byte
    ensures Enabled(j, Write(slot, 0, byte))
    ensures ArrivalBytes(Apply(j, Write(slot, 0, byte)), slot, 1) != ArrivalBytes(j, slot, 1)
  {
    var j' := Apply(j, Write(slot, 0, byte));
    assert Load(j'.p.mem, Start(j, slot), 1)[0] == byte;
    assert Load(j.p.mem, Start(j, slot), 1)[0] != byte;
  }

  lemma RecycleLeaves(j: Joint, slot: nat)
    requires j.m.head <= |j.m.posted| && j.alive && j.m.scope.kind == M.Recv && j.m.held == multiset{} && slot in j.m.all
    ensures Enabled(j, Pooled(M.Recycle(slot)))
    ensures var j1 := Apply(j, Pooled(M.Recycle(slot)));
            && j1 == j.(m := j1.m) && slot in j1.m.free && j1.m.events == j.m.events && j1.m.scope == j.m.scope
            && j1.m.held == multiset{} && j1.m.head <= |j1.m.posted|
  {
  }

  lemma RecordLeaves(j: Joint, t: M.Ticket, i: nat, k: M.Token)
    requires j.m.head <= |j.m.posted| && j.alive && j.m.scope.kind == M.Recv && j.m.held == multiset{}
    requires i < |j.m.events| && t.ring == j.R() && t.id in j.m.scope.ids
    requires j.m.events[i].BelongsTo(t.ring, t.id) && M.TokenOf(M.Recv, j.m.events[i]) == Some(k)
    ensures Enabled(j, Pooled(M.RecordEvent(t, i)))
    ensures var j2 := Apply(j, Pooled(M.RecordEvent(t, i)));
            j2 == j.(m := j2.m) && k in j2.m.held && j2.m.free == j.m.free && j2.m.scope == j.m.scope
  {
  }

  /** Recycled before it is recorded, a buffer is with its arrival and with the kernel, which may fill it. */
  lemma RecycledBeforeRecord(j: Joint, t: M.Ticket, i: nat, slot: nat, pos: nat)
    requires Inv(j) && j.alive && j.m.held == multiset{} && slot in j.m.all && 0 < j.size
    requires i < |j.m.events| && t.ring == j.R() && t.id in j.m.scope.ids
    requires j.m.events[i].BelongsTo(t.ring, t.id) && M.TokenOf(M.Recv, j.m.events[i]) == Some(M.Whole(slot))
    requires P.InFlight(j.p, j.R(), pos) && j.p.rings[j.R()].sqes[pos].target == Group(j.group)
    ensures Enabled(j, Pooled(M.Recycle(slot)))
    ensures var j1 := Apply(j, Pooled(M.Recycle(slot)));
            && j1.m.head <= |j1.m.posted| && Enabled(j1, Pooled(M.RecordEvent(t, i)))
            && (var j2 := Apply(j1, Pooled(M.RecordEvent(t, i)));
                M.Whole(slot) in j2.m.held && CanFill(j2, pos, slot, 0))
  {
    SlotInMemory(j, slot);
    RecycleLeaves(j, slot);
    RecordLeaves(Apply(j, Pooled(M.Recycle(slot))), t, i, M.Whole(slot));
  }
}

/**
 What the protocol promises over whole runs.
 */
module ProtocolRuns {
  import opened Arithmetic
  import opened Bytes
  import opened MsgRegion
  import opened Footprint
  import opened Paths
  import opened Completion
  import opened Protocol
  import opened ProtocolSteps

  predicate BuildsRequest(st: Step) { st.Prepare? || st.Arm? || st.Adopt? || st.AddPath? || st.AddSpans? }

  lemma BuildStepKeeps(s: Sys, st: Step)
    requires Inv(s) && Enabled(s, st) && BuildsRequest(st)
    ensures Inv(Apply(s, st))
  {
    match st
    case Prepare(h, spans) => PrepareKeeps(s, h, spans);
    case Arm(group) => ArmKeeps(s, group);
    case Adopt(h, p) => AdoptKeeps(s, h, p);
    case AddPath(h, o) => AddPathKeeps(s, h, o);
    case AddSpans(h, o, spans) => AddSpansKeeps(s, h, o, spans);
  }

  predicate MovesValues(st: Step) {
    st.Allocate? || st.Join? || st.Divide? || st.IntoParts? || st.Drop? || st.Redeem? || st.RecordSent?
  }

  lemma ValueStepKeeps(s: Sys, st: Step)
    requires Inv(s) && Enabled(s, st) && MovesValues(st)
    ensures Inv(Apply(s, st))
  {
    match st
    case Allocate(addr, len) => AllocateKeeps(s, addr, len);
    case Join(h, o) => JoinKeeps(s, h, o);
    case Divide(h, part) => DivideKeeps(s, h, part);
    case IntoParts(h) => IntoPartsKeeps(s, h);
    case Redeem(h, rc) => RedeemKeeps(s, h, rc);
    case RecordSent(h, n) => RecordSentKeeps(s, h, n);
    case Drop(h) => DropKeeps(s, h);
  }

  lemma StepKeeps(s: Sys, st: Step)
    requires Inv(s) && Enabled(s, st)
    ensures Inv(Apply(s, st))
  {
    if BuildsRequest(st) {
      BuildStepKeeps(s, st);
      return;
    }
    if MovesValues(st) {
      ValueStepKeeps(s, st);
      return;
    }
    match st
    case SplitOwned(cap) => SplitKeeps(s, cap);
    case PrepareMsg(h, q, slot) => PrepareMsgKeeps(s, h, q, slot);
    case Shorten(h, lens) => ShortenKeeps(s, h, lens);
    case AppWrite(h, b, x, byte) => AppWriteKeeps(s, h, b, x, byte);
    case Push(h, r) => PushKeeps(s, h, r);
    case Submit(r, n) => SubmitKeeps(s, r, n);
    case KernelWrite(r, p, x, byte) => KernelWriteKeeps(s, r, p, x, byte);
    case Post(r, p, result, flags) => PostKeeps(s, r, p, result, flags);
    case ReapEvent(r) => ReapKeeps(s, r);
  }

  predicate Possible(s: Sys, steps: seq<Step>)
    decreases |steps|
  {
    steps == [] || (Enabled(s, steps[0]) && Possible(Apply(s, steps[0]), steps[1..]))
  }

  function Run(s: Sys, steps: seq<Step>): Sys
    requires Possible(s, steps)
    decreases |steps|
  {
    if steps == [] then s else Run(Apply(s, steps[0]), steps[1..])
  }

  lemma {:induction false} RunKeeps(s: Sys, steps: seq<Step>)
    requires Inv(s) && Possible(s, steps)
    ensures Inv(Run(s, steps))
    decreases |steps|
  {
    if steps != [] {
      StepKeeps(s, steps[0]);
      RunKeeps(Apply(s, steps[0]), steps[1..]);
    }
  }

  /** Only positions of the submission history are done. */
  predicate DoneOk(s: Sys) {
    forall r, p :: r in s.rings && p in s.rings[r].done ==> p < |s.rings[r].sqes|
  }

  lemma DoneStep(s: Sys, st: Step)
    requires DoneOk(s) && Enabled(s, st)
    ensures DoneOk(Apply(s, st))
  {
  }

  lemma {:induction false} DoneRun(s: Sys, steps: seq<Step>)
    requires DoneOk(s) && Possible(s, steps)
    ensures DoneOk(Run(s, steps))
    decreases |steps|
  {
    if steps != [] {
      DoneStep(s, steps[0]);
      DoneRun(Apply(s, steps[0]), steps[1..]);
    }
  }

  // ----- the kernel only touches what nobody else can -----

  /** The SQE at position `p` of ring `r` is queued or in flight. */
  predicate Outstanding(s: Sys, r: nat, p: nat) {
    r in s.rings && p < |s.rings[r].sqes| && p !in s.rings[r].done
  }

  /** Safe code can reach address `x` through some value it holds. */
  ghost predicate AppReaches(s: Sys, x: nat) {
    exists h, b :: h in s.vals && b in s.vals[h].Exposes() && In(b, x)
  }

  /** Only the ticket for SQE `p` of ring `r`, if it still exists, owns `b`. */
  ghost predicate OnlyTicketOwns(s: Sys, r: nat, p: nat, b: Buf)
    requires r in s.rings && p < |s.rings[r].sqes|
  {
    forall h :: h in s.vals && b in s.vals[h].Owns() ==>
      s.vals[h].Pending? && s.vals[h].key == Key(r, s.rings[r].sqes[p].userData)
  }

  lemma OutstandingLogged(s: Sys, r: nat, p: nat)
    requires LogOk(s.rings, s.nextRing, s.log) && Outstanding(s, r, p)
    ensures var k := Key(r, s.rings[r].sqes[p].userData);
            && Active(s.rings, s.log, k) && s.rings[r].sqes[p].target == TargetOf(s.log[k].req)
  {
    assert NamedBy(s.log, r, s.rings[r].sqes, p);
    assert Logged(s.rings, s.log, Key(r, s.rings[r].sqes[p].userData));
  }

  lemma ExposedIsOwned(v: Value, b: Buf)
    requires b in v.Exposes()
    ensures b in v.Owns() && !v.Pending?
  {
  }

  /** Address `x` is in live storage that at most the ticket of this SQE owns and no value exposes. */
  ghost predicate OutOfReach(s: Sys, r: nat, p: nat, x: nat)
    requires r in s.rings && p < |s.rings[r].sqes|
  {
    (exists b :: b in s.live && In(b, x) && OnlyTicketOwns(s, r, p, b)) && !AppReaches(s, x)
  }

  /** The kernel can reach address `x` from this SQE, as memory now stands. */
  predicate Reaches(s: Sys, r: nat, p: nat, x: nat) {
    Outstanding(s, r, p) && Touches(s.mem, s.rings[r].sqes[p].target, x)
  }

  /** In one good state, an address the kernel can reach is live and exclusively its own. */
  lemma AccessSafe(s: Sys, r: nat, p: nat, x: nat)
    requires Inv(s) && Reaches(s, r, p, x)
    ensures OutOfReach(s, r, p, x)
  {
    OutstandingLogged(s, r, p);
    var k := Key(r, s.rings[r].sqes[p].userData);
    TouchesOwned(s.mem, s.log[k].req, x);
    var b :| b in s.log[k].req.Owns() && In(b, x);
    assert b in s.live && OnlyTicketOwns(s, r, p, b);
    forall h, c | h in s.vals && c in s.vals[h].Exposes()
      ensures !In(c, x)
    {
      ExposedIsOwned(s.vals[h], c);
      assert c in s.vals[h].Owns() && s.vals[h].Owns() <= s.live;
      assert c != b && Apart(b, c);
    }
  }

  /**
   Safety of every interleaving: after any run, any address the kernel can reach
   from a queued or in-flight SQE, following whatever memory now says, lies in
   storage that is not freed, that no value lets safe code reach, and that at
   most the request's own ticket owns.
   */
  lemma KernelNeverStrays(s0: Sys, steps: seq<Step>)
    requires Initial(s0) && Possible(s0, steps)
    ensures var s := Run(s0, steps);
            forall r: nat, p: nat, x: nat :: Reaches(s, r, p, x) ==> OutOfReach(s, r, p, x)
  {
    InitialInv(s0);
    RunKeeps(s0, steps);
    var s := Run(s0, steps);
    forall r: nat, p: nat, x: nat | Reaches(s, r, p, x)
      ensures OutOfReach(s, r, p, x)
    {
      AccessSafe(s, r, p, x);
    }
  }

  // ----- storage is conserved -----

  function OwnedBy(s: Sys, h: nat): set<Buf> { if h in s.vals then s.vals[h].Owns() else {} }

  ghost predicate Held(s: Sys, b: Buf) { exists h: nat :: b in OwnedBy(s, h) }

  /** Neither freed nor owned by anything: lost for good. */
  ghost predicate Leaked(s: Sys, b: Buf) { b in s.live && !Held(s, b) }

  /** Each allocation is freed, leaked, or held by exactly one value, never two of these. */
  lemma ExactlyOneStatus(s: Sys, b: Buf)
    requires Inv(s) && (b in s.live || b in s.freed)
    ensures b in s.freed <==> !(Leaked(s, b) || Held(s, b))
    ensures !(Leaked(s, b) && Held(s, b))
    ensures forall h, g :: h in s.vals && g in s.vals && b in s.vals[h].Owns() && b in s.vals[g].Owns() ==> h == g
  {
    if Held(s, b) {
      var h: nat :| b in OwnedBy(s, h);
      assert s.vals[h].Owns() <= s.live;
    }
  }

  /** This step drops a ticket that owns `b`. */
  predicate Abandons(s: Sys, st: Step, b: Buf) {
    st.Drop? && HoldsPending(s, st.h) && b in s.vals[st.h].Owns()
  }

  /** This step drops a value, other than a ticket, that owns `b`. */
  predicate Frees(s: Sys, st: Step, b: Buf) {
    st.Drop? && Holds(s, st.h) && !s.vals[st.h].Pending? && b in s.vals[st.h].Owns()
  }

  /** Ownership and allocation are exactly as before. */
  ghost predicate Quiet(s: Sys, s': Sys) {
    && s'.live == s.live && s'.freed == s.freed
    && forall h: nat :: OwnedBy(s', h) == OwnedBy(s, h)
  }

  predicate MovesStorage(st: Step) {
    st.Allocate? || st.Join? || st.AddPath? || st.AddSpans? || st.Divide? || st.Drop?
  }

  lemma PutQuiet(s: Sys, s': Sys, h: nat, v: Value)
    requires s'.live == s.live && s'.freed == s.freed
    requires s'.vals == s.vals[h := v] && v.Owns() == OwnedBy(s, h)
    ensures Quiet(s, s')
  {
  }

  lemma TradeQuiet(s: Sys, s': Sys, h: nat, v: Value, gone: nat)
    requires s'.live == s.live && s'.freed == s.freed && h != gone
    requires s'.vals == (s.vals - {gone})[h := v] && v.Owns() == OwnedBy(s, h) && OwnedBy(s, gone) == {}
    ensures Quiet(s, s')
  {
  }

  lemma AdoptQuiet(s: Sys, h: nat, p: OwnedPath)
    requires CanAdopt(s, h, p)
    ensures Quiet(s, Apply(s, Adopt(h, p)))
  {
    assert Prepared(ByPath([p], [])).Owns() == {p.store};
    PutQuiet(s, Apply(s, Adopt(h, p)), h, Prepared(ByPath([p], [])));
  }

  lemma PushQuiet(s: Sys, h: nat, r: nat)
    requires CanPush(s, h, r)
    ensures Quiet(s, DoPush(s, h, r))
  {
    if !s.rings[r].Full() {
      PutQuiet(s, DoPush(s, h, r), h, Pending(Key(r, s.rings[r].nextId), s.vals[h].req, None));
    }
  }

  lemma ReapQuiet(s: Sys, r: nat)
    requires OwnOk(s.live, s.vals, s.nextVal) && CanReap(s, r)
    ensures Quiet(s, DoReap(s, r))
  {
    PutQuiet(s, DoReap(s, r), s.nextVal, NextValue(s, r));
  }

  lemma RedeemQuiet(s: Sys, h: nat, rc: nat)
    requires CanRedeem(s, h, rc)
    ensures Quiet(s, DoRedeem(s, h, rc))
  {
    if Matches(s, h, rc) {
      TradeQuiet(s, DoRedeem(s, h, rc), h, Completed(s.vals[h].req, s.vals[h].sent, s.vals[rc].receipt), rc);
    }
  }

  lemma RecordQuiet(s: Sys, h: nat, n: nat)
    requires CanRecordSent(s, h, n)
    ensures Quiet(s, DoRecordSent(s, h, n))
  {
    var p, notice := s.vals[h], s.vals[n].partial;
    if notice.BelongsTo(p.key.ring, p.key.id) {
      TradeQuiet(s, DoRecordSent(s, h, n), h, Pending(p.key, p.req, Some(notice.result)), n);
    }
  }

  lemma BuildQuiet(s: Sys, st: Step)
    requires OwnOk(s.live, s.vals, s.nextVal) && Enabled(s, st) && !MovesStorage(st)
    requires BuildsRequest(st) || st.PrepareMsg? || st.IntoParts?
    ensures Quiet(s, Apply(s, st))
  {
    match st
    case Prepare(h, spans) => PutQuiet(s, Apply(s, st), h, Prepared(Flat(spans)));
    case Arm(group) => PutQuiet(s, Apply(s, st), s.nextVal, Prepared(Provided(group)));
    case Adopt(h, p) => AdoptQuiet(s, h, p);
    case PrepareMsg(h, q, slot) => PutQuiet(s, Apply(s, st), h, Prepared(q));
    case IntoParts(h) => PutQuiet(s, Apply(s, st), h, Buffers(s.vals[h].Owns()));
  }

  /** All other steps, the kernel's included, leave every buffer where it is. */
  lemma QuietStep(s: Sys, st: Step)
    requires OwnOk(s.live, s.vals, s.nextVal) && Enabled(s, st) && !MovesStorage(st)
    ensures Quiet(s, Apply(s, st))
  {
    if BuildsRequest(st) || st.PrepareMsg? || st.IntoParts? {
      BuildQuiet(s, st);
      return;
    }
    match st
    case Push(h, r) => PushQuiet(s, h, r);
    case ReapEvent(r) => ReapQuiet(s, r);
    case Redeem(h, rc) => RedeemQuiet(s, h, rc);
    case RecordSent(h, n) => RecordQuiet(s, h, n);
    case _ =>
  }

  /** What one step does to one buffer: both directions. */
  ghost predicate Conserves(s: Sys, st: Step, s': Sys, b: Buf) {
    && (b in s'.freed <==> b in s.freed || Frees(s, st, b))
    && (Leaked(s', b) <==> Leaked(s, b) || Abandons(s, st, b))
    && !(b in s.freed && Frees(s, st, b)) && !(Leaked(s, b) && Abandons(s, st, b))
    && (b in s.live ==> b in s'.live || b in s'.freed)
  }

  lemma QuietConserves(s: Sys, st: Step, s': Sys, b: Buf)
    requires Quiet(s, s') && !st.Drop?
    ensures Conserves(s, st, s', b)
  {
    assert Held(s, b) <==> Held(s', b);
  }

  lemma AllocateConserves(s: Sys, addr: nat, len: nat, b: Buf)
    requires Inv(s) && CanAllocate(s, addr, len)
    ensures Conserves(s, Allocate(addr, len), DoAllocate(s, addr, len), b)
  {
    var s' := DoAllocate(s, addr, len);
    var c := Buf(s.nextBuf, addr, len);
    assert c !in s.live && OwnedBy(s', s.nextVal) == {c} && OwnedBy(s, s.nextVal) == {};
    assert forall h: nat :: h != s.nextVal ==> OwnedBy(s', h) == OwnedBy(s, h);
  }

  /** One value takes over what another owned. */
  lemma MergeConserves(s: Sys, st: Step, s': Sys, h: nat, o: nat, v: Value, b: Buf)
    requires h != o && Holds(s, h) && Holds(s, o) && !st.Drop?
    requires s' == s.(vals := (s.vals - {o})[h := v]) && v.Owns() == s.vals[h].Owns() + s.vals[o].Owns()
    ensures Conserves(s, st, s', b)
  {
    assert OwnedBy(s', h) == OwnedBy(s, h) + OwnedBy(s, o) && OwnedBy(s', o) == {};
    assert forall g: nat :: g != h && g != o ==> OwnedBy(s', g) == OwnedBy(s, g);
  }

  lemma DivideConserves(s: Sys, h: nat, part: set<Buf>, b: Buf)
    requires OwnOk(s.live, s.vals, s.nextVal) && HoldsBuffers(s, h) && part <= s.vals[h].bufs
    ensures Conserves(s, Divide(h, part), DoDivide(s, h, part), b)
  {
    var s' := DoDivide(s, h, part);
    assert OwnedBy(s, h) == OwnedBy(s', h) + OwnedBy(s', s.nextVal) && OwnedBy(s, s.nextVal) == {};
    assert forall g: nat :: g != h && g != s.nextVal ==> OwnedBy(s', g) == OwnedBy(s, g);
  }

  lemma DropTakes(s: Sys, h: nat, b: Buf)
    requires OwnOk(s.live, s.vals, s.nextVal) && Holds(s, h)
    ensures var s' := DoDrop(s, h);
            && (b in OwnedBy(s, h) ==> b in s.live && Held(s, b) && !Held(s', b))
            && (b !in OwnedBy(s, h) ==> (Held(s', b) <==> Held(s, b)))
  {
    var s' := DoDrop(s, h);
    assert OwnedBy(s', h) == {};
    assert forall g: nat :: g != h ==> OwnedBy(s', g) == OwnedBy(s, g);
    assert forall g: nat :: g != h ==> OwnedBy(s, g) !! OwnedBy(s, h);
  }

  lemma DropConserves(s: Sys, h: nat, b: Buf)
    requires HeapOk(s.mem, s.live, s.freed, s.nextBuf) && OwnOk(s.live, s.vals, s.nextVal) && Holds(s, h)
    ensures Conserves(s, Drop(h), DoDrop(s, h), b)
  {
    DropTakes(s, h, b);
  }

  lemma MergesConserve(s: Sys, st: Step, b: Buf)
    requires Enabled(s, st) && (st.Join? || st.AddPath? || st.AddSpans?)
    ensures Conserves(s, st, Apply(s, st), b)
  {
    match st
    case Join(h, o) => MergeConserves(s, st, DoJoin(s, h, o), h, o, Buffers(s.vals[h].bufs + s.vals[o].bufs), b);
    case AddPath(h, o) =>
      AddPathOwns(s.vals[h].req.paths, s.vals[o].req.paths, s.vals[h].req.spans);
      MergeConserves(s, st, DoAddPath(s, h, o), h, o, DoAddPath(s, h, o).vals[h], b);
    case AddSpans(h, o, spans) =>
      AddSpansOwns(s.vals[h].req.paths, s.vals[h].req.spans, spans);
      MergeConserves(s, st, DoAddSpans(s, h, o, spans), h, o, DoAddSpans(s, h, o, spans).vals[h], b);
  }

  lemma MovesConserve(s: Sys, st: Step, b: Buf)
    requires Inv(s) && Enabled(s, st) && MovesStorage(st)
    ensures Conserves(s, st, Apply(s, st), b)
  {
    if st.Join? || st.AddPath? || st.AddSpans? {
      MergesConserve(s, st, b);
      return;
    }
    match st
    case Allocate(addr, len) => AllocateConserves(s, addr, len, b);
    case Divide(h, part) => DivideConserves(s, h, part, b);
    case Drop(h) => DropConserves(s, h, b);
  }

  /**
   One step conserves storage: it becomes freed exactly when a value other than a
   ticket is dropped with it, leaked exactly when an unredeemed ticket is, neither
   happens to what was already freed or leaked, and nothing else leaves the heap.
   */
  lemma StepConserves(s: Sys, st: Step, b: Buf)
    requires Inv(s) && Enabled(s, st)
    ensures Conserves(s, st, Apply(s, st), b)
  {
    if MovesStorage(st) {
      MovesConserve(s, st, b);
    } else {
      QuietStep(s, st);
      QuietConserves(s, st, Apply(s, st), b);
    }
  }

  /** How many steps of a run free `b`. */
  function TimesFreed(s: Sys, steps: seq<Step>, b: Buf): nat
    requires Possible(s, steps)
    decreases |steps|
  {
    if steps == [] then 0
    else (if Frees(s, steps[0], b) then 1 else 0) + TimesFreed(Apply(s, steps[0]), steps[1..], b)
  }

  /** How many steps of a run drop an unredeemed ticket that owns `b`. */
  function TimesAbandoned(s: Sys, steps: seq<Step>, b: Buf): nat
    requires Possible(s, steps)
    decreases |steps|
  {
    if steps == [] then 0
    else (if Abandons(s, steps[0], b) then 1 else 0) + TimesAbandoned(Apply(s, steps[0]), steps[1..], b)
  }

  lemma {:induction false} ConservesFrom(s: Sys, steps: seq<Step>, b: Buf)
    requires Inv(s) && Possible(s, steps)
    ensures var e := Run(s, steps);
            && Bit(b in s.freed) + TimesFreed(s, steps, b) == Bit(b in e.freed)
            && Bit(Leaked(s, b)) + TimesAbandoned(s, steps, b) == Bit(Leaked(e, b))
    decreases |steps|
  {
    if steps != [] {
      StepKeeps(s, steps[0]);
      StepConserves(s, steps[0], b);
      ConservesFrom(Apply(s, steps[0]), steps[1..], b);
    }
  }

  /**
   Conservation over whole runs: a buffer is freed at most once, and it ends up
   freed exactly when some step freed it; it ends up leaked exactly when some step
   dropped an unredeemed ticket that owned it, and never both.
   */
  lemma RunsConserve(s0: Sys, steps: seq<Step>, b: Buf)
    requires Initial(s0) && Possible(s0, steps)
    ensures var e := Run(s0, steps);
            && TimesFreed(s0, steps, b) == Bit(b in e.freed)
            && TimesAbandoned(s0, steps, b) == Bit(Leaked(e, b))
            && TimesFreed(s0, steps, b) + TimesAbandoned(s0, steps, b) <= 1
  {
    InitialInv(s0);
    ConservesFrom(s0, steps, b);
    RunKeeps(s0, steps);
    assert !(b in Run(s0, steps).freed && Leaked(Run(s0, steps), b));
  }

  /** No step of this run drops an unredeemed ticket. */
  predicate KeepsTickets(s: Sys, steps: seq<Step>)
    requires Possible(s, steps)
    decreases |steps|
  {
    steps == [] ||
    (!(steps[0].Drop? && HoldsPending(s, steps[0].h)) && KeepsTickets(Apply(s, steps[0]), steps[1..]))
  }

  lemma {:induction false} NeverAbandons(s: Sys, steps: seq<Step>, b: Buf)
    requires Possible(s, steps) && KeepsTickets(s, steps)
    ensures TimesAbandoned(s, steps, b) == 0
    decreases |steps|
  {
    if steps != [] {
      NeverAbandons(Apply(s, steps[0]), steps[1..], b);
    }
  }

  /** A run that never drops an unredeemed ticket leaks nothing at all. */
  lemma RedeemingRunsLeakNothing(s0: Sys, steps: seq<Step>)
    requires Initial(s0) && Possible(s0, steps) && KeepsTickets(s0, steps)
    ensures forall b :: !Leaked(Run(s0, steps), b)
  {
    forall b
      ensures !Leaked(Run(s0, steps), b)
    {
      NeverAbandons(s0, steps, b);
      RunsConserve(s0, steps, b);
    }
  }

  // ----- redemption is authenticated -----

  /** Nothing the kernel can still reach lies in any of these buffers. */
  ghost predicate KernelGone(s: Sys, bufs: set<Buf>) {
    forall r: nat, p: nat, x: nat, b ::
      Outstanding(s, r, p) && Touches(s.mem, s.rings[r].sqes[p].target, x) && b in bufs ==> !In(b, x)
  }

  /**
   The kernel posted the terminal CQE of exactly this ticket's request, with
   exactly this result, and is done with every byte of it; and among all rings,
   whose ids overlap, no other ticket and no other receipt has this key.
   */
  ghost predicate Authentic(s: Sys, h: nat, rc: nat)
    requires CanRedeem(s, h, rc)
  {
    var p, receipt := s.vals[h], s.vals[rc].receipt;
    && p.key in s.log && s.log[p.key].req == p.req && p.key.ring in s.rings
    && s.log[p.key].pos in s.rings[p.key.ring].done
    && Cqe(p.key.id, receipt.result, receipt.flags) in s.rings[p.key.ring].cqes
    && !Has(receipt.flags, MORE)
    && (forall g :: g in s.vals && g != h && s.vals[g].Pending? ==> s.vals[g].key != p.key)
    && (forall g :: g in s.vals && g != rc && s.vals[g].Releases() ==> KeyOf(s.vals[g].receipt) != p.key)
    && KernelGone(s, p.Owns())
  }

  lemma RedeemAuthenticated(s: Sys, h: nat, rc: nat)
    requires Inv(s) && CanRedeem(s, h, rc) && Matches(s, h, rc)
    ensures Authentic(s, h, rc)
  {
    var p, receipt := s.vals[h], s.vals[rc].receipt;
    assert KeyOf(receipt) == p.key;
    MintedDone(s, receipt);
    forall r: nat, q: nat, x: nat, b
      | Outstanding(s, r, q) && Touches(s.mem, s.rings[r].sqes[q].target, x) && b in p.Owns()
      ensures !In(b, x)
    {
      OutsideOf(s, h, r, q, x, b);
    }
  }

  lemma OutsideOf(s: Sys, h: nat, r: nat, q: nat, x: nat, b: Buf)
    requires HeapOk(s.mem, s.live, s.freed, s.nextBuf) && OwnOk(s.live, s.vals, s.nextVal)
    requires LogOk(s.rings, s.nextRing, s.log) && ActiveOk(s.mem, s.live, s.rings, s.log)
    requires TieOk(s.rings, s.log, s.vals)
    requires HoldsPending(s, h) && !Active(s.rings, s.log, s.vals[h].key)
    requires Outstanding(s, r, q) && Touches(s.mem, s.rings[r].sqes[q].target, x)
    requires b in s.vals[h].Owns()
    ensures !In(b, x)
  {
    OutstandingLogged(s, r, q);
    var k := Key(r, s.rings[r].sqes[q].userData);
    TouchesOwned(s.mem, s.log[k].req, x);
    var c :| c in s.log[k].req.Owns() && In(c, x);
    assert s.vals[h].Owns() !! s.log[k].req.Owns();
    assert c in s.live && b in s.live && Apart(b, c);
  }

  /** A redeem that succeeds is authentic and gives back the very request that was pushed. */
  ghost predicate RedeemSound(s: Sys, h: nat, rc: nat)
    requires CanRedeem(s, h, rc)
  {
    var s' := DoRedeem(s, h, rc);
    if Matches(s, h, rc) then
      && Authentic(s, h, rc)
      && h in s'.vals && s'.vals[h].Completed? && s'.vals[h].req == s.log[s.vals[h].key].req
      && s'.vals[h].receipt == s.vals[rc].receipt
      && rc !in s'.vals
    else s' == s
  }

  lemma RedeemIsSound(s: Sys, h: nat, rc: nat)
    requires Inv(s) && CanRedeem(s, h, rc)
    ensures RedeemSound(s, h, rc)
  {
    if Matches(s, h, rc) {
      RedeemAuthenticated(s, h, rc);
    }
  }

  /** So it is in every reachable state, and a receipt that does not match changes nothing. */
  lemma RunsRedeemAuthentically(s0: Sys, steps: seq<Step>, h: nat, rc: nat)
    requires Initial(s0) && Possible(s0, steps) && CanRedeem(Run(s0, steps), h, rc)
    ensures RedeemSound(Run(s0, steps), h, rc)
  {
    InitialInv(s0);
    RunKeeps(s0, steps);
    RedeemIsSound(Run(s0, steps), h, rc);
  }

  /** In every reachable state all tickets, of every kind and ring, have distinct keys. */
  lemma TicketsDistinct(s0: Sys, steps: seq<Step>, h: nat, g: nat)
    requires Initial(s0) && Possible(s0, steps) && h != g
    requires HoldsPending(Run(s0, steps), h) && HoldsPending(Run(s0, steps), g)
    ensures Run(s0, steps).vals[h].key != Run(s0, steps).vals[g].key
  {
    InitialInv(s0);
    RunKeeps(s0, steps);
  }

  // ----- and storage does come back -----

  lemma Prepend(s: Sys, st: Step, rest: seq<Step>)
    requires Enabled(s, st) && Possible(Apply(s, st), rest)
    ensures Possible(s, [st] + rest) && Run(s, [st] + rest) == Run(Apply(s, st), rest)
  {
    assert ([st] + rest)[1..] == rest;
  }

  /** The terminal CQE of a ticket is next to be reaped. */
  predicate ReadyToRedeem(s: Sys, h: nat, result: int) {
    && HoldsPending(s, h) && CanReap(s, s.vals[h].key.ring) && h != s.nextVal
    && (var ring := s.rings[s.vals[h].key.ring];
        ring.cqes[ring.cqHead] == Cqe(s.vals[h].key.id, result, 0))
  }

  lemma ReapThenRedeem(s: Sys, h: nat, result: int)
    requires ReadyToRedeem(s, h, result)
    ensures var p := s.vals[h];
            var steps := [ReapEvent(p.key.ring)] + ([Redeem(h, s.nextVal)] + []);
            && Possible(s, steps) && h in Run(s, steps).vals
            && Run(s, steps).vals[h] == Completed(p.req, p.sent, Receipt(p.key.ring, p.key.id, result, 0))
  {
    var k := s.vals[h].key;
    var s1 := Apply(s, ReapEvent(k.ring));
    assert s1.vals[s.nextVal] == Terminal(Receipt(k.ring, k.id, result, 0));
    Prepend(s1, Redeem(h, s.nextVal), []);
    Prepend(s, ReapEvent(k.ring), [Redeem(h, s.nextVal)] + []);
  }

  lemma PushSubmitPost(s: Sys, h: nat, r: nat, result: int)
    requires h < s.nextVal && CanPush(s, h, r)
    requires var ring := s.rings[r];
             ring.head == |ring.sqes| && ring.cqHead == |ring.cqes| && ring.cap > 0 && |ring.sqes| !in ring.done
    ensures CanSubmit(DoPush(s, h, r), r, 1)
    ensures InFlight(DoSubmit(DoPush(s, h, r), r, 1), r, |s.rings[r].sqes|)
    ensures var s3 := DoPost(DoSubmit(DoPush(s, h, r), r, 1), r, |s.rings[r].sqes|, result, 0);
            && ReadyToRedeem(s3, h, result) && s3.nextVal == s.nextVal
            && s3.vals[h] == Pending(Key(r, s.rings[r].nextId), s.vals[h].req, None)
  {
  }

  /**
   The protocol is not safe by being stuck: a prepared request pushed to an idle ring
   can be submitted, completed, reaped and redeemed, and comes back with the storage
   it went in with and the kernel's result.
   */
  lemma RequestsComeBack(s: Sys, h: nat, r: nat, result: int) returns (steps: seq<Step>)
    requires h < s.nextVal && CanPush(s, h, r)
    requires var ring := s.rings[r];
             ring.head == |ring.sqes| && ring.cqHead == |ring.cqes| && ring.cap > 0 && |ring.sqes| !in ring.done
    ensures Possible(s, steps) && h in Run(s, steps).vals
    ensures Run(s, steps).vals[h]
         == Completed(s.vals[h].req, None, Receipt(r, s.rings[r].nextId, result, 0))
  {
    var p := |s.rings[r].sqes|;
    PushSubmitPost(s, h, r, result);
    var s1 := DoPush(s, h, r);
    var s2 := DoSubmit(s1, r, 1);
    var s3 := DoPost(s2, r, p, result, 0);
    ReapThenRedeem(s3, h, result);
    var rest := [ReapEvent(r)] + ([Redeem(h, s.nextVal)] + []);
    Prepend(s2, Post(r, p, result, 0), rest);
    Prepend(s1, Submit(r, 1), [Post(r, p, result, 0)] + rest);
    Prepend(s, Push(h, r), [Submit(r, 1)] + ([Post(r, p, result, 0)] + rest));
    steps := [Push(h, r)] + ([Submit(r, 1)] + ([Post(r, p, result, 0)] + rest));
  }
}

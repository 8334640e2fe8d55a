/**
 The queue classes carry out the protocol: over whole runs, what the two halves of
 every ring hold and hand out is what the protocol's rings hold and hand out.
 */
module Refinement {
  import opened Arithmetic
  import opened Bytes
  import opened MsgRegion
  import opened Footprint
  import opened Completion
  import Identity
  import Q = Queue
  import R = Request
  import P = Protocol
  import PR = ProtocolRuns

  /** Both halves of one ring, and the requests its accepted entries were pushed for. */
  datatype Halves = Halves(sq: Q.Sq, pushed: seq<R.Prepared>, cq: seq<Cqe>, reaped: nat)

  /** All rings, and the tickets and events an application holds, under the names the protocol uses. */
  datatype Queues = Queues(nextRing: nat, rings: map<nat, Halves>, tickets: map<nat, R.Pending>, events: map<nat, Event>)

  // ----- the calls -----

  /** A call on the queues, a move of the kernel's on them, or a protocol step that is neither. */
  datatype Op =
    | Split(cap: nat)
    | Push(h: nat, ring: nat, request: R.Prepared)
    | Take(ring: nat)
    | Post(ring: nat, pos: nat, result: int, flags: nat)
    | ReapEvent(ring: nat)
    | Redeem(h: nat, receipt: nat)
    | RecordSent(h: nat, notice: nat)
    | Drop(h: nat)
    | Other(step: P.Step)

  function StepOf(op: Op): P.Step {
    match op
    case Split(cap) => P.SplitOwned(cap)
    case Push(h, r, _) => P.Push(h, r)
    case Take(r) => P.Submit(r, 1)
    case Post(r, p, result, flags) => P.Post(r, p, result, flags)
    case ReapEvent(r) => P.ReapEvent(r)
    case Redeem(h, rc) => P.Redeem(h, rc)
    case RecordSent(h, n) => P.RecordSent(h, n)
    case Drop(h) => P.Drop(h)
    case Other(st) => st
  }

  predicate Elsewhere(st: P.Step) {
    || st.Allocate? || st.Join? || st.Divide? || st.Prepare? || st.Arm? || st.Adopt? || st.AddPath? || st.AddSpans?
    || st.PrepareMsg? || st.Shorten? || st.AppWrite? || st.IntoParts? || st.KernelWrite? || st.Drop?
  }

  /**
   What it takes to make the call, as the caller sees it: the ring, the ticket, the event
   or the entry is there. Of the protocol's state it speaks only where the queues have no
   view: which value a pushed request is, what the kernel has in flight, and steps that
   are not calls on the queues at all.
   */
  predicate Allowed(abi: R.Abi, s: P.Sys, c: Queues, op: Op) {
    match op
    case Split(_) => true
    case Push(h, r, p) =>
      && r in c.rings && c.rings[r].sq.drawn + 1 < U64
      && P.Holds(s, h) && s.vals[h] == P.Prepared(p.Memory()) && p.Valid(s.mem) && (p.Wait? ==> p.abi == abi)
    case Take(r) => r in c.rings && c.rings[r].sq.from < |c.rings[r].sq.log|
    case Post(r, p, _, _) => P.InFlight(s, r, p)
    case ReapEvent(r) => r in c.rings && c.rings[r].reaped < |c.rings[r].cq|
    case Redeem(h, g) => h in c.tickets && g in c.events && c.events[g].Complete?
    case RecordSent(h, g) =>
      h in c.tickets && g in c.events && c.events[g].Partial? && R.TakesNotices(c.tickets[h])
    case Drop(h) => h in c.tickets || h in c.events
    case Other(st) => Elsewhere(st) && P.Enabled(s, st) && (st.Drop? ==> st.h !in c.tickets && st.h !in c.events)
  }

  /** What a terminal event and a ticket have to do with each other. */
  predicate Redeems(c: Queues, h: nat, g: nat) {
    && h in c.tickets && g in c.events && c.events[g].Complete?
    && c.events[g].BelongsTo(c.tickets[h].ring, c.tickets[h].id)
  }

  predicate Records(c: Queues, h: nat, g: nat) {
    && h in c.tickets && g in c.events && c.events[g].Partial?
    && c.events[g].BelongsTo(c.tickets[h].ring, c.tickets[h].id)
  }

  predicate OnRing(op: Op) { op.Push? || op.Take? || op.Post? || op.ReapEvent? }

  /** The ring, the SQE and the completion the call speaks of exist. */
  predicate Callable(c: Queues, op: Op) {
    OnRing(op) ==>
      && op.ring in c.rings
      && (op.Post? ==> op.pos < |c.rings[op.ring].sq.log|)
      && (op.ReapEvent? ==> c.rings[op.ring].reaped < |c.rings[op.ring].cq|)
  }

  function PushedOn(q: Halves, result: Q.PushResult, p: R.Prepared): seq<R.Prepared> {
    if result.Accepted? then q.pushed + [p] else q.pushed
  }

  /** The queues after a call; `fresh` names what it hands out. */
  function Do(c: Queues, op: Op, name: nat): Queues
    requires Callable(c, op)
  {
    match op
    case Split(cap) =>
      c.(nextRing := c.nextRing + 1, rings := c.rings[c.nextRing := Halves(Q.Sq([], 0, cap, 0), [], [], 0)])
    case Push(h, r, p) =>
      var (sq, result) := Q.Pushed(c.rings[r].sq, r, p);
      c.(rings := c.rings[r := c.rings[r].(sq := sq, pushed := PushedOn(c.rings[r], result, p))],
         tickets := if result.Accepted? then c.tickets[h := result.ticket] else c.tickets)
    case Take(r) =>
      c.(rings := c.rings[r := c.rings[r].(sq := c.rings[r].sq.(from := c.rings[r].sq.from + 1))])
    case Post(r, p, result, flags) =>
      var cqe := Cqe(c.rings[r].sq.log[p].userData, result, flags);
      c.(rings := c.rings[r := c.rings[r].(cq := c.rings[r].cq + [cqe])])
    case ReapEvent(r) =>
      var got := Q.EventAt(r, c.rings[r].cq, c.rings[r].reaped);
      c.(rings := c.rings[r := c.rings[r].(reaped := got.from)], events := c.events[name := got.value.value])
    case Redeem(h, g) =>
      if Redeems(c, h, g) then c.(tickets := c.tickets - {h}, events := c.events - {g}) else c
    case RecordSent(h, g) =>
      if Records(c, h, g) && R.TakesNotices(c.tickets[h]) then
        c.(tickets := c.tickets[h := R.WithSent(c.tickets[h], c.events[g].Result())], events := c.events - {g})
      else c
    case Drop(h) => c.(tickets := c.tickets - {h}, events := c.events - {h})
    case Other(_) => c
  }

  // ----- the relation -----

  /** An SQE as the protocol sees it: where the kernel will go, and the id. */
  function Seen(abi: R.Abi, e: R.Entry): P.Sqe { P.Sqe(R.KernelTarget(abi, e), e.userData) }

  function SeenAll(abi: R.Abi, log: seq<R.Entry>): seq<P.Sqe> {
    seq(|log|, i requires 0 <= i < |log| => Seen(abi, log[i]))
  }

  /** Every accepted entry asks the kernel for the operation its request was prepared for. */
  ghost predicate AsMeant(q: Halves) {
    && |q.pushed| == |q.sq.log|
    && forall i :: 0 <= i < |q.pushed| ==> R.AsksFor(q.sq.log[i]) == R.MeantBy(q.pushed[i])
  }

  ghost predicate RingShows(abi: R.Abi, ring: P.Ring, q: Halves) {
    && ring.sqes == SeenAll(abi, q.sq.log) && ring.head == q.sq.from && ring.cap == q.sq.cap
    && ring.nextId == 1 + q.sq.drawn && ring.cqes == q.cq && ring.cqHead == q.reaped
    && AsMeant(q)
  }

  ghost predicate RingsShow(abi: R.Abi, s: P.Sys, c: Queues) {
    && s.nextRing == c.nextRing && s.rings.Keys == c.rings.Keys
    && forall r :: r in c.rings ==> RingShows(abi, s.rings[r], c.rings[r])
  }

  /** What the protocol holds under a handle, as far as the queues gave it out. */
  datatype Thing = Nothing | Ticket(key: P.Key, req: Req, sent: Option<int>) | Reaped(event: Event)

  function ThingAt(s: P.Sys, h: nat): Thing {
    if h !in s.vals then Nothing else
      match s.vals[h]
      case Pending(key, req, sent) => Ticket(key, req, sent)
      case Terminal(rc) => Reaped(Complete(rc))
      case Notice(p) => Reaped(Partial(p))
      case _ => Nothing
  }

  function ThingIn(c: Queues, h: nat): Thing {
    if h in c.tickets then
      var t := c.tickets[h];
      Ticket(P.Key(t.ring, t.id), R.KeptMemory(t), R.SentOf(t))
    else if h in c.events then Reaped(c.events[h])
    else Nothing
  }

  ghost predicate ThingsShow(s: P.Sys, c: Queues) {
    && c.tickets.Keys !! c.events.Keys
    && forall h: nat :: ThingAt(s, h) == ThingIn(c, h)
  }

  ghost predicate Shows(abi: R.Abi, s: P.Sys, c: Queues) { RingsShow(abi, s, c) && ThingsShow(s, c) }

  // ----- each call does what the protocol's step does -----

  /** What the call answers is what the step decides. */
  ghost predicate Agrees(abi: R.Abi, s: P.Sys, c: Queues, op: Op)
    requires P.Enabled(s, StepOf(op)) && RingsShow(abi, s, c)
  {
    match op
    case Push(h, r, p) =>
      var result := Q.Pushed(c.rings[r].sq, r, p).1;
      (result.Accepted? <==> !s.rings[r].Full()) && (result.Full? ==> result.request == p)
    case Take(r) =>
      && c.rings[r].sq.from < |c.rings[r].sq.log|
      && Seen(abi, c.rings[r].sq.log[c.rings[r].sq.from]) == s.rings[r].sqes[s.rings[r].head]
      && c.rings[r].sq.from < |c.rings[r].pushed|
      && R.AsksFor(c.rings[r].sq.log[c.rings[r].sq.from]) == R.MeantBy(c.rings[r].pushed[c.rings[r].sq.from])
    case ReapEvent(r) =>
      && c.rings[r].reaped <= |c.rings[r].cq|
      && (var got := Q.EventAt(r, c.rings[r].cq, c.rings[r].reaped).value;
          got.Some? && P.EventValue(got.value) == P.NextValue(s, r))
    case Redeem(h, rc) => Redeems(c, h, rc) <==> P.Matches(s, h, rc)
    case RecordSent(h, n) =>
      h in c.tickets && n in c.events && (Records(c, h, n) <==> P.DoRecordSent(s, h, n) != s)
    case _ => true
  }

  /** The call answers as the step decides, and leaves queues that are the protocol's. */
  ghost predicate Refines(abi: R.Abi, s: P.Sys, c: Queues, op: Op)
    requires P.Enabled(s, StepOf(op)) && RingsShow(abi, s, c)
  {
    && Callable(c, op) && Agrees(abi, s, c, op)
    && Shows(abi, P.Apply(s, StepOf(op)), Do(c, op, s.nextVal))
  }

  /** Whatever the queues allow, the protocol allows. */
  lemma AllowedIsEnabled(abi: R.Abi, s: P.Sys, c: Queues, op: Op)
    requires Shows(abi, s, c) && Allowed(abi, s, c, op)
    ensures P.Enabled(s, StepOf(op)) && Callable(c, op)
  {
    if OnRing(op) {
      assert op.ring in s.rings ==> RingShows(abi, s.rings[op.ring], c.rings[op.ring]);
    } else if op.Redeem? {
      assert ThingAt(s, op.h) == ThingIn(c, op.h) && ThingAt(s, op.receipt) == ThingIn(c, op.receipt);
    } else if op.RecordSent? {
      assert ThingAt(s, op.h) == ThingIn(c, op.h) && ThingAt(s, op.notice) == ThingIn(c, op.notice);
    } else if op.Drop? {
      assert ThingAt(s, op.h) == ThingIn(c, op.h);
    }
  }

  lemma SeenMore(abi: R.Abi, log: seq<R.Entry>, e: R.Entry)
    ensures SeenAll(abi, log + [e]) == SeenAll(abi, log) + [Seen(abi, e)]
  {
  }

  lemma DrawIsNext(n: nat)
    requires n + 1 < U64
    ensures Identity.Draw(U64, n) == n + 1
  {
  }

  /** The entry `push` appends is, to the kernel, the protocol's SQE. */
  lemma PushedShows(abi: R.Abi, s: P.Sys, ring: P.Ring, q: Halves, r: nat, p: R.Prepared)
    requires RingShows(abi, ring, q) && q.sq.drawn + 1 < U64
    requires p.Valid(s.mem) && (p.Wait? ==> p.abi == abi)
    ensures var id := ring.nextId;
            && (Q.Pushed(q.sq, r, p).1.Accepted? <==> !ring.Full())
            && RingShows(abi,
                 if ring.Full() then ring.(nextId := id + 1)
                 else ring.(nextId := id + 1, sqes := ring.sqes + [P.Sqe(TargetOf(p.Memory()), id)]),
                 q.(sq := Q.Pushed(q.sq, r, p).0, pushed := PushedOn(q, Q.Pushed(q.sq, r, p).1, p)))
  {
    DrawIsNext(q.sq.drawn);
    R.SqeReachesOwned(p, ring.nextId, s.mem, abi);
    SeenMore(abi, q.sq.log, R.SqeOf(p, ring.nextId));
    R.EntryMeans(p, ring.nextId);
    assert |ring.sqes| == |q.sq.log|;
  }

  /** The ticket `push` returns is the protocol's. */
  lemma PushedThing(s: P.Sys, s': P.Sys, c: Queues, c': Queues, h: nat, r: nat, id: nat, p: R.Prepared)
    requires ThingsShow(s, c) && ThingAt(s, h) == Nothing
    requires s'.vals == s.vals[h := P.Pending(P.Key(r, id), p.Memory(), None)]
    requires c'.tickets == c.tickets[h := R.IntoPending(p, r, id).1] && c'.events == c.events
    ensures ThingsShow(s', c')
  {
    R.TicketKeepsMemory(p, r, id);
    R.NewTicketHasNone(p, r, id);
    assert ThingIn(c, h) == Nothing;
    forall g: nat
      ensures ThingAt(s', g) == ThingIn(c', g)
    {
      assert ThingAt(s, g) == ThingIn(c, g);
    }
  }

  lemma PushRefines(abi: R.Abi, s: P.Sys, c: Queues, h: nat, r: nat, p: R.Prepared)
    requires Shows(abi, s, c) && Allowed(abi, s, c, Push(h, r, p)) && P.Enabled(s, StepOf(Push(h, r, p)))
    ensures Refines(abi, s, c, Push(h, r, p))
  {
    var ring, q := s.rings[r], c.rings[r];
    var s', c' := P.DoPush(s, h, r), Do(c, Push(h, r, p), s.nextVal);
    assert RingShows(abi, ring, q);
    PushedShows(abi, s, ring, q, r, p);
    PushRing(s, h, r);
    RingMoves(abi, s, s', c, c', r);
    PushThings(abi, s, c, h, r, p);
  }

  /** What the protocol's push does to its ring. */
  lemma PushRing(s: P.Sys, h: nat, r: nat)
    requires P.CanPush(s, h, r)
    ensures var ring, s' := s.rings[r], P.DoPush(s, h, r);
            && s' == s.(rings := s.rings[r := s'.rings[r]], vals := s'.vals, log := s'.log)
            && s'.rings[r] ==
               (if ring.Full() then ring.(nextId := ring.nextId + 1)
                else ring.(nextId := ring.nextId + 1, sqes := ring.sqes + [P.Sqe(TargetOf(s.vals[h].req), ring.nextId)]))
  {
  }

  lemma PushThings(abi: R.Abi, s: P.Sys, c: Queues, h: nat, r: nat, p: R.Prepared)
    requires ThingsShow(s, c) && P.CanPush(s, h, r) && s.vals[h] == P.Prepared(p.Memory())
    requires r in c.rings && RingShows(abi, s.rings[r], c.rings[r]) && c.rings[r].sq.drawn + 1 < U64
    ensures ThingsShow(P.DoPush(s, h, r), Do(c, Push(h, r, p), s.nextVal))
  {
    var s', c' := P.DoPush(s, h, r), Do(c, Push(h, r, p), s.nextVal);
    assert |s.rings[r].sqes| == |c.rings[r].sq.log|;
    if s.rings[r].Full() {
      SameThings(s, s', c, c');
    } else {
      DrawIsNext(c.rings[r].sq.drawn);
      PushedThing(s, s', c, c', h, r, s.rings[r].nextId, p);
    }
  }

  lemma RingMoves(abi: R.Abi, s: P.Sys, s': P.Sys, c: Queues, c': Queues, r: nat)
    requires RingsShow(abi, s, c) && r in c.rings && r in s'.rings && r in c'.rings
    requires s'.nextRing == s.nextRing && s'.rings == s.rings[r := s'.rings[r]]
    requires c'.nextRing == c.nextRing && c'.rings == c.rings[r := c'.rings[r]]
    requires RingShows(abi, s'.rings[r], c'.rings[r])
    ensures RingsShow(abi, s', c')
  {
    forall t | t in c'.rings
      ensures RingShows(abi, s'.rings[t], c'.rings[t])
    {
      assert t != r ==> RingShows(abi, s.rings[t], c.rings[t]);
    }
  }

  lemma TakeAgrees(abi: R.Abi, s: P.Sys, c: Queues, r: nat)
    requires Shows(abi, s, c) && P.Enabled(s, StepOf(Take(r)))
    ensures Callable(c, Take(r)) && Agrees(abi, s, c, Take(r))
  {
    assert RingShows(abi, s.rings[r], c.rings[r]);
  }

  lemma TakeRefines(abi: R.Abi, s: P.Sys, c: Queues, r: nat)
    requires Shows(abi, s, c) && P.Enabled(s, StepOf(Take(r)))
    ensures Refines(abi, s, c, Take(r))
  {
    assert RingShows(abi, s.rings[r], c.rings[r]);
    TakeAgrees(abi, s, c, r);
    var s', c' := P.DoSubmit(s, r, 1), Do(c, Take(r), s.nextVal);
    RingMoves(abi, s, s', c, c', r);
    SameThings(s, s', c, c');
  }

  lemma SameThings(s: P.Sys, s': P.Sys, c: Queues, c': Queues)
    requires ThingsShow(s, c) && s'.vals == s.vals && c'.tickets == c.tickets && c'.events == c.events
    ensures ThingsShow(s', c')
  {
    forall h: nat
      ensures ThingAt(s', h) == ThingIn(c', h)
    {
      assert ThingAt(s, h) == ThingIn(c, h);
    }
  }

  lemma PostRefines(abi: R.Abi, s: P.Sys, c: Queues, r: nat, p: nat, result: int, flags: nat)
    requires Shows(abi, s, c) && P.Enabled(s, StepOf(Post(r, p, result, flags)))
    ensures Refines(abi, s, c, Post(r, p, result, flags))
  {
    assert RingShows(abi, s.rings[r], c.rings[r]);
    assert s.rings[r].sqes[p] == Seen(abi, c.rings[r].sq.log[p]);
    var s', c' := P.DoPost(s, r, p, result, flags), Do(c, Post(r, p, result, flags), s.nextVal);
    RingMoves(abi, s, s', c, c', r);
    SameThings(s, s', c, c');
  }

  lemma ReapRefines(abi: R.Abi, s: P.Sys, c: Queues, r: nat)
    requires Shows(abi, s, c) && P.Enabled(s, StepOf(ReapEvent(r))) && s.nextVal !in s.vals
    ensures Refines(abi, s, c, ReapEvent(r))
  {
    assert RingShows(abi, s.rings[r], c.rings[r]);
    var s', c' := P.DoReap(s, r), Do(c, ReapEvent(r), s.nextVal);
    RingMoves(abi, s, s', c, c', r);
    ReapedThing(s, s', c, c', EventOf(r, s.rings[r].cqes[s.rings[r].cqHead]));
  }

  /** The event that is handed out is the protocol's new value. */
  lemma ReapedThing(s: P.Sys, s': P.Sys, c: Queues, c': Queues, e: Event)
    requires ThingsShow(s, c) && s.nextVal !in s.vals
    requires s'.vals == s.vals[s.nextVal := P.EventValue(e)]
    requires c'.tickets == c.tickets && c'.events == c.events[s.nextVal := e]
    ensures ThingsShow(s', c')
  {
    assert ThingAt(s, s.nextVal) == Nothing;
    assert ThingIn(c, s.nextVal) == Nothing;
    forall h: nat
      ensures ThingAt(s', h) == ThingIn(c', h)
    {
      assert ThingAt(s, h) == ThingIn(c, h);
    }
  }

  lemma SplitRefines(abi: R.Abi, s: P.Sys, c: Queues, cap: nat)
    requires Shows(abi, s, c)
    ensures Refines(abi, s, c, Split(cap))
  {
    var s', c' := P.DoSplit(s, cap), Do(c, Split(cap), s.nextVal);
    assert RingShows(abi, s'.rings[s.nextRing], c'.rings[s.nextRing]);
    forall r | r in c'.rings
      ensures RingShows(abi, s'.rings[r], c'.rings[r])
    {
      if r != s.nextRing {
        assert RingShows(abi, s.rings[r], c.rings[r]);
      }
    }
    SameThings(s, s', c, c');
  }

  lemma SameRings(abi: R.Abi, s: P.Sys, s': P.Sys, c: Queues, c': Queues)
    requires RingsShow(abi, s, c) && s'.rings == s.rings && s'.nextRing == s.nextRing
    requires c'.rings == c.rings && c'.nextRing == c.nextRing
    ensures RingsShow(abi, s', c')
  {
  }

  lemma RedeemRefines(abi: R.Abi, s: P.Sys, c: Queues, h: nat, rc: nat)
    requires Shows(abi, s, c) && P.Enabled(s, StepOf(Redeem(h, rc)))
    ensures Refines(abi, s, c, Redeem(h, rc))
  {
    var s', c' := P.DoRedeem(s, h, rc), Do(c, Redeem(h, rc), s.nextVal);
    assert ThingAt(s, h) == ThingIn(c, h) && ThingAt(s, rc) == ThingIn(c, rc);
    SameRings(abi, s, s', c, c');
    forall g: nat
      ensures ThingAt(s', g) == ThingIn(c', g)
    {
      assert ThingAt(s, g) == ThingIn(c, g);
    }
  }

  lemma RecordRefines(abi: R.Abi, s: P.Sys, c: Queues, h: nat, n: nat)
    requires Shows(abi, s, c) && P.Enabled(s, StepOf(RecordSent(h, n))) && Allowed(abi, s, c, RecordSent(h, n))
    ensures Refines(abi, s, c, RecordSent(h, n))
  {
    R.RecordKeepsTicket(c.tickets[h], c.events[n].Result());
    var s', c' := P.DoRecordSent(s, h, n), Do(c, RecordSent(h, n), s.nextVal);
    assert ThingAt(s, h) == ThingIn(c, h) && ThingAt(s, n) == ThingIn(c, n);
    SameRings(abi, s, s', c, c');
    forall g: nat
      ensures ThingAt(s', g) == ThingIn(c', g)
    {
      assert ThingAt(s, g) == ThingIn(c, g);
    }
  }

  lemma DropRefines(abi: R.Abi, s: P.Sys, c: Queues, h: nat)
    requires Shows(abi, s, c) && P.Enabled(s, StepOf(Drop(h)))
    ensures Refines(abi, s, c, Drop(h))
  {
    var s', c' := P.DoDrop(s, h), Do(c, Drop(h), s.nextVal);
    SameRings(abi, s, s', c, c');
    forall g: nat
      ensures ThingAt(s', g) == ThingIn(c', g)
    {
      assert ThingAt(s, g) == ThingIn(c, g);
    }
  }

  predicate MovesOnly(st: P.Step) { st.Allocate? || st.Join? || st.Divide? || st.Prepare? || st.Arm? }

  predicate PathOnly(st: P.Step) { st.Adopt? || st.AddPath? || st.AddSpans? || st.IntoParts? }

  lemma MovesQuiet(s: P.Sys, st: P.Step, h: nat)
    requires P.OwnOk(s.live, s.vals, s.nextVal) && P.Enabled(s, st) && MovesOnly(st)
    ensures var s' := P.Apply(s, st);
            s'.rings == s.rings && s'.nextRing == s.nextRing && ThingAt(s', h) == ThingAt(s, h)
  {
  }

  lemma PathsQuiet(s: P.Sys, st: P.Step, h: nat)
    requires P.Enabled(s, st) && PathOnly(st)
    ensures var s' := P.Apply(s, st);
            s'.rings == s.rings && s'.nextRing == s.nextRing && ThingAt(s', h) == ThingAt(s, h)
  {
  }

  predicate WritesOnly(st: P.Step) { st.PrepareMsg? || st.Shorten? || st.AppWrite? || st.KernelWrite? }

  lemma BytesOnly(s: P.Sys, st: P.Step)
    requires P.Enabled(s, st) && (st.Shorten? || st.AppWrite? || st.KernelWrite?)
    ensures P.Apply(s, st) == s.(mem := P.Apply(s, st).mem)
  {
  }

  lemma BuildOnly(s: P.Sys, g: nat, q: Req, slot: seq<Byte>)
    requires P.CanPrepareMsg(s, g, q, slot)
    ensures var s' := P.DoPrepareMsg(s, g, q, slot);
            s'.rings == s.rings && s'.nextRing == s.nextRing && s'.vals == s.vals[g := P.Prepared(q)]
    ensures s.vals[g].Buffers?
  {
  }

  lemma BuildThing(s: P.Sys, s': P.Sys, g: nat, q: Req, h: nat)
    requires g in s.vals && s.vals[g].Buffers? && s'.vals == s.vals[g := P.Prepared(q)]
    ensures ThingAt(s', h) == ThingAt(s, h)
  {
  }

  lemma WritesQuiet(s: P.Sys, st: P.Step, h: nat)
    requires P.Enabled(s, st) && WritesOnly(st)
    ensures var s' := P.Apply(s, st);
            s'.rings == s.rings && s'.nextRing == s.nextRing && ThingAt(s', h) == ThingAt(s, h)
  {
    if st.PrepareMsg? {
      BuildOnly(s, st.h, st.req, st.slot);
      BuildThing(s, P.Apply(s, st), st.h, st.req, h);
    } else {
      BytesOnly(s, st);
    }
  }

  lemma DropQuiet(s: P.Sys, g: nat, h: nat)
    requires P.Holds(s, g) && ThingAt(s, g) == Nothing
    ensures var s' := P.DoDrop(s, g);
            s'.rings == s.rings && s'.nextRing == s.nextRing && ThingAt(s', h) == ThingAt(s, h)
  {
  }

  /** Everything else, memory writes included, leaves the queues and what they gave out alone. */
  lemma ElsewhereQuiet(s: P.Sys, st: P.Step, h: nat)
    requires P.OwnOk(s.live, s.vals, s.nextVal) && P.Enabled(s, st) && Elsewhere(st)
    requires st.Drop? ==> ThingAt(s, st.h) == Nothing
    ensures var s' := P.Apply(s, st);
            s'.rings == s.rings && s'.nextRing == s.nextRing && ThingAt(s', h) == ThingAt(s, h)
  {
    if MovesOnly(st) {
      MovesQuiet(s, st, h);
    } else if PathOnly(st) {
      PathsQuiet(s, st, h);
    } else if WritesOnly(st) {
      WritesQuiet(s, st, h);
    } else {
      DropQuiet(s, st.h, h);
    }
  }

  lemma OtherRefines(abi: R.Abi, s: P.Sys, c: Queues, st: P.Step)
    requires Shows(abi, s, c) && P.OwnOk(s.live, s.vals, s.nextVal) && Allowed(abi, s, c, Other(st))
    ensures Refines(abi, s, c, Other(st))
  {
    var s' := P.Apply(s, st);
    if st.Drop? {
      assert ThingAt(s, st.h) == ThingIn(c, st.h);
    }
    ElsewhereQuiet(s, st, 0);
    SameRings(abi, s, s', c, c);
    forall h: nat
      ensures ThingAt(s', h) == ThingIn(c, h)
    {
      ElsewhereQuiet(s, st, h);
      assert ThingAt(s, h) == ThingIn(c, h);
    }
  }

  lemma RingOpRefines(abi: R.Abi, s: P.Sys, c: Queues, op: Op)
    requires s.nextVal !in s.vals && Shows(abi, s, c) && Allowed(abi, s, c, op) && OnRing(op)
    requires P.Enabled(s, StepOf(op))
    ensures Refines(abi, s, c, op)
  {
    match op
    case Push(h, r, p) => PushRefines(abi, s, c, h, r, p);
    case Take(r) => TakeRefines(abi, s, c, r);
    case Post(r, p, result, flags) => PostRefines(abi, s, c, r, p, result, flags);
    case ReapEvent(r) => ReapRefines(abi, s, c, r);
  }

  lemma ValueOpRefines(abi: R.Abi, s: P.Sys, c: Queues, op: Op)
    requires P.OwnOk(s.live, s.vals, s.nextVal) && Shows(abi, s, c) && Allowed(abi, s, c, op) && !OnRing(op)
    requires P.Enabled(s, StepOf(op))
    ensures Refines(abi, s, c, op)
  {
    match op
    case Split(cap) => SplitRefines(abi, s, c, cap);
    case Redeem(h, rc) => RedeemRefines(abi, s, c, h, rc);
    case RecordSent(h, n) => RecordRefines(abi, s, c, h, n);
    case Drop(h) => DropRefines(abi, s, c, h);
    case Other(st) => OtherRefines(abi, s, c, st);
  }

  /** One call: it answers as the protocol decides, and the two stay related. */
  lemma OpRefines(abi: R.Abi, s: P.Sys, c: Queues, op: Op)
    requires P.OwnOk(s.live, s.vals, s.nextVal) && Shows(abi, s, c) && Allowed(abi, s, c, op)
    ensures P.Enabled(s, StepOf(op)) && Refines(abi, s, c, op)
  {
    AllowedIsEnabled(abi, s, c, op);
    if OnRing(op) {
      RingOpRefines(abi, s, c, op);
    } else {
      ValueOpRefines(abi, s, c, op);
    }
  }

  // ----- whole runs -----

  /** These calls can be made one after another; whether the protocol follows is not asked. */
  ghost predicate Possible(abi: R.Abi, s: P.Sys, c: Queues, ops: seq<Op>)
    decreases |ops|
  {
    ops == [] ||
    (Allowed(abi, s, c, ops[0])
     && (P.Enabled(s, StepOf(ops[0])) && Callable(c, ops[0]) ==>
           Possible(abi, P.Apply(s, StepOf(ops[0])), Do(c, ops[0], s.nextVal), ops[1..])))
  }

  /** The protocol follows, and every answer along the way is its own. */
  ghost predicate AllAgree(abi: R.Abi, s: P.Sys, c: Queues, ops: seq<Op>)
    decreases |ops|
  {
    ops == [] ||
    (P.Enabled(s, StepOf(ops[0])) && Callable(c, ops[0]) && RingsShow(abi, s, c) && Agrees(abi, s, c, ops[0])
     && AllAgree(abi, P.Apply(s, StepOf(ops[0])), Do(c, ops[0], s.nextVal), ops[1..]))
  }

  function Steps(ops: seq<Op>): seq<P.Step> {
    if ops == [] then [] else [StepOf(ops[0])] + Steps(ops[1..])
  }

  ghost function QueuesAfter(abi: R.Abi, s: P.Sys, c: Queues, ops: seq<Op>): Queues
    requires AllAgree(abi, s, c, ops)
    decreases |ops|
  {
    if ops == [] then c
    else QueuesAfter(abi, P.Apply(s, StepOf(ops[0])), Do(c, ops[0], s.nextVal), ops[1..])
  }

  lemma {:induction false} RefinesFrom(abi: R.Abi, s: P.Sys, c: Queues, ops: seq<Op>)
    requires P.Inv(s) && Shows(abi, s, c) && Possible(abi, s, c, ops)
    ensures AllAgree(abi, s, c, ops) && PR.Possible(s, Steps(ops))
    ensures Shows(abi, PR.Run(s, Steps(ops)), QueuesAfter(abi, s, c, ops))
    decreases |ops|
  {
    if ops != [] {
      OpRefines(abi, s, c, ops[0]);
      PR.StepKeeps(s, StepOf(ops[0]));
      RefinesFrom(abi, P.Apply(s, StepOf(ops[0])), Do(c, ops[0], s.nextVal), ops[1..]);
      assert Steps(ops)[1..] == Steps(ops[1..]);
    }
  }

  /**
   Whole-run refinement. Whatever is called on the halves of any number of rings, with
   the kernel taking and posting, with memory changing and values moving in between,
   the protocol has a run that gives every call the same answer and ends holding the
   same queues, tickets and events. So what is proved of every protocol run holds of it.
   */
  lemma QueuesRefineProtocol(abi: R.Abi, s0: P.Sys, ops: seq<Op>)
    requires P.Initial(s0) && Possible(abi, s0, Queues(1, map[], map[], map[]), ops)
    ensures var c0 := Queues(1, map[], map[], map[]);
            && AllAgree(abi, s0, c0, ops) && PR.Possible(s0, Steps(ops))
            && Shows(abi, PR.Run(s0, Steps(ops)), QueuesAfter(abi, s0, c0, ops))
  {
    P.InitialInv(s0);
    RefinesFrom(abi, s0, Queues(1, map[], map[], map[]), ops);
  }
}

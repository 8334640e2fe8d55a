/**
 Requests that complete many times: what each completion carries, and where
 every pool slot, descriptor or table slot is while they run.
 */
module Multishot {
  import opened Arithmetic
  import opened Completion
  import Slots

  /** A pool receive, a descriptor accept, or an accept into the file table. */
  datatype Kind = Recv | Accept | Direct

  /** `claim`: the resource a completion carries, if it carries one. */
  function Claim(kind: Kind, result: int, flags: nat): Option<nat> {
    match kind
    case Recv => if result >= 0 then BufferId(flags) else None
    case Accept => if result >= 0 then Some(result) else None
    case Direct => Slots.Target.Auto.Resolve(result)
  }

  datatype Ticket = Ticket(ring: nat, id: nat)

  /**
   `Delivery`, `Incoming` and `DirectIncoming`. `result` is a completion's raw result: for
   a receive, how many bytes arrived. A finished request may carry one last resource.
   */
  datatype Delivery =
    | Data(slot: nat, result: int)
    | Empty(result: int)
    | Done(receipt: Receipt, last: Option<nat>)
  {
    predicate Armed() { !Done? }

    /** `Finished::result`: why the request ended. */
    function Ended(): Outcome
      requires Done?
    {
      OutcomeOf(receipt.result)
    }

    function Slot(): Option<nat> {
      match this
      case Data(slot, _) => Some(slot)
      case Empty(_) => None
      case Done(_, last) => last
    }
  }

  /** `record`, once the event has matched the ticket. */
  function FromEvent(kind: Kind, e: Event): Delivery {
    match e
    case Partial(p) =>
      var slot := Claim(kind, p.result, p.flags);
      if slot.Some? then Data(slot.value, p.result) else Empty(p.result)
    case Complete(rc) => Done(rc, Claim(kind, rc.result, rc.flags))
  }

  /** `record`: an event of another request or ring comes back unchanged. */
  datatype Recorded = Interpreted(delivery: Delivery) | Unchanged(event: Event)

  function Record(kind: Kind, t: Ticket, e: Event): Recorded {
    if e.BelongsTo(t.ring, t.id) then Interpreted(FromEvent(kind, e)) else Unchanged(e)
  }

  // ----- the kernel's encodings -----

  /** Numbers the wire format can carry for this kind of resource. */
  predicate Encodable(kind: Kind, slot: nat) {
    match kind
    case Recv => slot < 0x1_0000
    case _ => slot < U32 / 2
  }

  /** The CQE that hands `slot` to request `id`; `len` is what a receive wrote there. */
  function Carrying(kind: Kind, id: nat, slot: nat, len: nat, more: bool, sock: bool, bufMore: bool): Cqe {
    match kind
    case Recv => Cqe(id, len, Flags(Some(slot), more, sock, false, bufMore))
    case _ => Cqe(id, slot, Flags(None, more, sock, false, false))
  }

  /** A CQE that carries nothing: an error, or the ordinary end of a receive. */
  function Bare(id: nat, result: int, more: bool, sock: bool): Cqe {
    Cqe(id, result, Flags(None, more, sock, false, false))
  }

  /**
   Which results carry nothing: any, for a receive, whose slot is in the flags; only
   a failure for an accept, whose result is the resource.
   */
  predicate Nothing(kind: Kind, result: int) { kind.Recv? || result < 0 }

  /**
   Reaping and recording invert the kernel's encoding: the ticket gets the slot the
   kernel chose, also when it is folded into the terminal CQE, and learns from the
   same completion whether the request is still armed.
   */
  lemma RecordInvertsKernel(kind: Kind, t: Ticket, slot: nat, len: nat, more: bool, sock: bool, bufMore: bool)
    requires Encodable(kind, slot)
    ensures var e := EventOf(t.ring, Carrying(kind, t.id, slot, len, more, sock, bufMore));
            && Record(kind, t, e).Interpreted?
            && Record(kind, t, e).delivery.Slot() == Some(slot)
            && Record(kind, t, e).delivery.Armed() == more
            && TokenOf(kind, e) == Some(Token(slot, kind.Recv? && bufMore))
  {
    FlagsDecode(if kind.Recv? then Some(slot) else None, more, sock, false, kind.Recv? && bufMore);
    assert kind.Direct? ==> Slots.AsU32(slot) == slot;
  }

  /** A completion with a negative result never yields a resource. */
  lemma FailureCarriesNothing(kind: Kind, t: Ticket, e: Event)
    requires e.Result() < 0
    ensures Record(kind, t, e).Interpreted? ==> Record(kind, t, e).delivery.Slot().None?
  {
  }

  /** Nor does one that ends a receive, or only reports on it, without a buffer. */
  lemma BareCarriesNothing(kind: Kind, t: Ticket, result: int, more: bool, sock: bool)
    requires Nothing(kind, result)
    ensures var e := EventOf(t.ring, Bare(t.id, result, more, sock));
            && Record(kind, t, e).Interpreted?
            && Record(kind, t, e).delivery.Slot().None?
            && Record(kind, t, e).delivery.Armed() == more
  {
    FlagsDecode(None, more, sock, false, false);
  }

  /**
   Recording tells the completion as the kernel posted it. One that carries a slot gives
   the slot and the posted length or number; one that carries nothing gives the result;
   and a terminal one gives the whole receipt besides.
   */
  lemma RecordTells(kind: Kind, t: Ticket, slot: nat, len: nat, more: bool, sock: bool, bufMore: bool)
    requires Encodable(kind, slot)
    ensures var c := Carrying(kind, t.id, slot, len, more, sock, bufMore);
            Record(kind, t, EventOf(t.ring, c))
            == Interpreted(if more then Data(slot, if kind.Recv? then len else slot)
                           else Done(Receipt(t.ring, t.id, if kind.Recv? then len else slot, c.flags), Some(slot)))
  {
    RecordInvertsKernel(kind, t, slot, len, more, sock, bufMore);
    FlagsDecode(if kind.Recv? then Some(slot) else None, more, sock, false, kind.Recv? && bufMore);
  }

  lemma BareTells(kind: Kind, t: Ticket, result: int, more: bool, sock: bool)
    requires Nothing(kind, result)
    ensures var c := Bare(t.id, result, more, sock);
            Record(kind, t, EventOf(t.ring, c))
            == Interpreted(if more then Empty(result) else Done(Receipt(t.ring, t.id, result, c.flags), None))
    ensures !more ==>
      var d := Record(kind, t, EventOf(t.ring, Bare(t.id, result, more, sock))).delivery;
      && (result < 0 ==> d.Ended().Failed? && d.Ended().errno + result == 0)
      && (result >= 0 ==> d.Ended() == Ok(result))
  {
    BareCarriesNothing(kind, t, result, more, sock);
    FlagsDecode(None, more, sock, false, false);
  }

  /** An event of another request or another ring is handed back as it came. */
  lemma ForeignHandedBack(kind: Kind, t: Ticket, e: Event)
    requires e.Ring() != t.ring || e.Id() != t.id
    ensures Record(kind, t, e) == Unchanged(e)
  {
  }

  // ----- where everything is -----

  /** A resource that was handed out, and whether the kernel said it goes on using it. */
  datatype Token = Token(slot: nat, kept: bool)

  function TokenOf(kind: Kind, e: Event): Option<Token> {
    match FromEvent(kind, e).Slot()
    case Some(slot) => Some(Token(slot, kind.Recv? && Has(e.CqeFlags(), BUF_MORE)))
    case None => None
  }

  /** Which requests of which ring share one pool, descriptor space or table. */
  datatype Scope = Scope(kind: Kind, ring: nat, ids: set<nat>)
  {
    /** What an event holds for these requests. */
    function Carried(e: Event): Option<Token> {
      if e.Ring() == ring && e.Id() in ids then TokenOf(kind, e) else None
    }

    /** How many of these events carry `k`. */
    function Count(es: seq<Event>, k: Token): nat {
      if es == [] then 0 else Bit(Carried(es[0]) == Some(k)) + Count(es[1..], k)
    }
  }

  /**
   One ring with any number of these requests on it. `free` is what the kernel may
   hand out (a bag: nothing in the crate keeps an id from being recycled twice).
   `posted` is the CQ's history and `head` how much of it is reaped. `events` are
   reaped and not recorded. `held` are live arrivals, sockets or slots; `lost` are
   those nothing names any more. `all` is the registered pool or table.
   */
  datatype Sys = Sys(
    scope: Scope, all: set<nat>, nextId: nat, armed: set<nat>, free: multiset<nat>, posted: seq<Cqe>, head: nat,
    events: seq<Event>, held: multiset<Token>, lost: multiset<Token>)

  function EventsOf(ring: nat, cs: seq<Cqe>): seq<Event> {
    seq(|cs|, i requires 0 <= i < |cs| => EventOf(ring, cs[i]))
  }

  function Unreaped(s: Sys): seq<Event>
    requires s.head <= |s.posted|
  {
    EventsOf(s.scope.ring, s.posted[s.head..])
  }

  /** How many times `k` is out of the kernel's hands: in a CQE, an event, held, or lost. */
  function Out(s: Sys, k: Token): nat
    requires s.head <= |s.posted|
  {
    s.scope.Count(Unreaped(s), k) + s.scope.Count(s.events, k) + s.held[k] + s.lost[k]
  }

  datatype Step =
    | Issue(multishot: bool)
    | Deliver(id: nat, slot: nat, len: nat, more: bool, sock: bool, bufMore: bool)
    | Report(id: nat, result: int, more: bool, sock: bool)
    | Foreign(cqe: Cqe)
    | Arrive(event: Event)
    | ReapEvent
    | Reap
    | RecordEvent(ticket: Ticket, i: nat)
    | DropEvent(i: nat)
    | Release(token: Token)
    | Forget(token: Token)
    | Recycle(slot: nat)

  function Without<T>(q: seq<T>, i: nat): seq<T>
    requires i < |q|
  {
    q[..i] + q[i + 1..]
  }

  /**
   What may happen next. The kernel hands out only what it has, posts only for
   requests it has not finished, and keeps a table accept armed only while it
   succeeds; only a request of this ring can be named by its CQEs. A live arrival
   borrows the pool: nothing else is recorded or recycled meanwhile. No call consumes a
   table slot; it is dropped, and its index cleared.
   */
  predicate Enabled(s: Sys, st: Step) {
    match st
    case Issue(_) => true
    case Deliver(id, slot, _, _, _, bufMore) =>
      id in s.armed && slot in s.free && Encodable(s.scope.kind, slot) && (bufMore ==> s.scope.kind.Recv?)
    case Report(id, result, more, _) =>
      id in s.armed && Nothing(s.scope.kind, result) && (s.scope.kind.Direct? ==> !more)
    case Foreign(c) => c.userData < s.nextId && c.userData !in s.scope.ids
    case Arrive(e) => e.Ring() != s.scope.ring
    case ReapEvent => s.head < |s.posted|
    case Reap => true
    case RecordEvent(t, i) =>
      i < |s.events| && t.ring == s.scope.ring && t.id in s.scope.ids && Unborrowed(s)
    case DropEvent(i) => i < |s.events|
    case Release(k) => k in s.held && !s.scope.kind.Direct?
    case Forget(k) => k in s.held
    case Recycle(slot) => slot in s.all && !s.scope.kind.Accept? && Unborrowed(s)
  }

  predicate Unborrowed(s: Sys) { s.scope.kind.Recv? ==> s.held == multiset{} }

  function DoPost(s: Sys, c: Cqe): Sys {
    s.(posted := s.posted + [c], armed := if c.Terminal() then s.armed - {c.userData} else s.armed)
  }

  /** A buffer the kernel says it will go on using stays in its hands. */
  function DoDeliver(s: Sys, id: nat, slot: nat, len: nat, more: bool, sock: bool, bufMore: bool): Sys {
    DoPost(s.(free := if bufMore then s.free else s.free - multiset{slot}),
           Carrying(s.scope.kind, id, slot, len, more, sock, bufMore))
  }

  function Bag(o: Option<Token>): multiset<Token> { if o.Some? then multiset{o.value} else multiset{} }

  function DoReapEvent(s: Sys): Sys
    requires s.head < |s.posted|
  {
    s.(events := s.events + [EventOf(s.scope.ring, s.posted[s.head])], head := s.head + 1)
  }

  /** `reap` past one non-terminal completion: whatever it carried is gone. */
  function DoSkip(s: Sys): Sys
    requires s.head < |s.posted|
  {
    s.(lost := s.lost + Bag(s.scope.Carried(EventOf(s.scope.ring, s.posted[s.head]))), head := s.head + 1)
  }

  function DoReap(s: Sys): Sys
    requires s.head <= |s.posted|
    decreases |s.posted| - s.head
  {
    if s.head == |s.posted| then s
    else if s.posted[s.head].Terminal() then DoReapEvent(s)
    else DoReap(DoSkip(s))
  }

  function DoRecord(s: Sys, t: Ticket, i: nat): Sys
    requires i < |s.events|
  {
    match Record(s.scope.kind, t, s.events[i])
    case Unchanged(_) => s
    case Interpreted(_) =>
      s.(events := Without(s.events, i), held := s.held + Bag(TokenOf(s.scope.kind, s.events[i])))
  }

  function DoDropEvent(s: Sys, i: nat): Sys
    requires i < |s.events|
  {
    s.(events := Without(s.events, i), lost := s.lost + Bag(s.scope.Carried(s.events[i])))
  }

  function Whole(slot: nat): Token { Token(slot, false) }

  function Kept(slot: nat): Token { Token(slot, true) }

  /** Clearing a table slot that is empty does nothing. */
  predicate Idle(s: Sys, slot: nat) { s.scope.kind.Direct? && slot in s.free }

  /** The caller gives back a slot that nothing names any more. */
  predicate Recovers(s: Sys, slot: nat) { !Idle(s, slot) && Whole(slot) in s.lost }

  /** ... or one that is elsewhere: with the kernel, in a completion or event, or held. */
  predicate Strays(s: Sys, slot: nat) { !Idle(s, slot) && Whole(slot) !in s.lost }

  /** `BufferConsumer::recycle_and_commit` on any id, or clearing a table slot by its index. */
  function DoRecycle(s: Sys, slot: nat): Sys {
    if Idle(s, slot) then s
    else s.(free := s.free + multiset{slot}, lost := if Recovers(s, slot) then s.lost - multiset{Whole(slot)} else s.lost)
  }

  /** `Arrival::drop`, or closing a socket. */
  function DoRelease(s: Sys, k: Token): Sys { s.(held := s.held - multiset{k}, free := s.free + multiset{k.slot}) }

  function DoForget(s: Sys, k: Token): Sys { s.(held := s.held - multiset{k}, lost := s.lost + multiset{k}) }

  function Apply(s: Sys, st: Step): Sys
    requires s.head <= |s.posted| && Enabled(s, st)
  {
    match st
    case Issue(multishot) =>
      if multishot then
        s.(nextId := s.nextId + 1, scope := s.scope.(ids := s.scope.ids + {s.nextId}), armed := s.armed + {s.nextId})
      else s.(nextId := s.nextId + 1)
    case Deliver(id, slot, len, more, sock, bufMore) => DoDeliver(s, id, slot, len, more, sock, bufMore)
    case Report(id, result, more, sock) => DoPost(s, Bare(id, result, more, sock))
    case Foreign(c) => DoPost(s, c)
    case Arrive(e) => s.(events := s.events + [e])
    case ReapEvent => DoReapEvent(s)
    case Reap => DoReap(s)
    case RecordEvent(t, i) => DoRecord(s, t, i)
    case DropEvent(i) => DoDropEvent(s, i)
    case Release(k) => DoRelease(s, k)
    case Forget(k) => DoForget(s, k)
    case Recycle(slot) => DoRecycle(s, slot)
  }

  /** What `record` makes of an event is held and nothing else moves; an event that is not the ticket's stays. */
  lemma RecordHolds(s: Sys, t: Ticket, i: nat)
    requires i < |s.events|
    ensures var s' := DoRecord(s, t, i);
            match Record(s.scope.kind, t, s.events[i])
            case Unchanged(e) => e == s.events[i] && s' == s
            case Interpreted(d) =>
              && |s'.events| == |s.events| - 1
              && (forall j :: 0 <= j < i ==> s'.events[j] == s.events[j])
              && (forall j :: i <= j < |s'.events| ==> s'.events[j] == s.events[j + 1])
              && (forall k :: s'.held[k] == s.held[k] + Bit(TokenOf(s.scope.kind, s.events[i]) == Some(k)))
              && (d.Slot().Some? <==> TokenOf(s.scope.kind, s.events[i]).Some?)
              && s'.lost == s.lost && s'.free == s.free && s'.posted == s.posted && s'.head == s.head
  {
  }

  /** Dropping an event loses what it carried and nothing else. */
  lemma DropLoses(s: Sys, i: nat)
    requires i < |s.events|
    ensures var s' := DoDropEvent(s, i);
            && |s'.events| == |s.events| - 1 && s'.held == s.held && s'.free == s.free
            && (forall k :: s'.lost[k] == s.lost[k] + Bit(s.scope.Carried(s.events[i]) == Some(k)))
  {
  }

  // ----- what every step keeps -----

  /** Ids are handed out once, and a terminal completion is a request's last. */
  ghost predicate Inv(s: Sys) {
    && s.head <= |s.posted|
    && s.armed <= s.scope.ids && (forall id :: id in s.scope.ids ==> id < s.nextId)
    && (forall i :: 0 <= i < |s.posted| ==> PostedOk(s, i))
    && (forall i, j :: 0 <= i < j < |s.posted| && s.posted[i].Terminal() && s.posted[i].userData in s.scope.ids ==>
          s.posted[j].userData != s.posted[i].userData)
    && (forall i :: 0 <= i < |s.events| ==> FromCq(s.scope.ring, s.posted[..s.head], s.events[i]))
  }

  predicate PostedOk(s: Sys, i: nat)
    requires i < |s.posted|
  {
    && s.posted[i].userData < s.nextId
    && (s.posted[i].Terminal() ==> s.posted[i].userData !in s.armed)
  }

  /** An event of this ring came from its history. */
  ghost predicate FromCq(ring: nat, reaped: seq<Cqe>, e: Event) {
    e.Ring() == ring ==> exists i :: 0 <= i < |reaped| && EventOf(ring, reaped[i]) == e
  }

  lemma FromCqGrows(ring: nat, reaped: seq<Cqe>, reaped': seq<Cqe>, e: Event)
    requires FromCq(ring, reaped, e) && reaped <= reaped'
    ensures FromCq(ring, reaped', e)
  {
    if e.Ring() == ring {
      var i :| 0 <= i < |reaped| && EventOf(ring, reaped[i]) == e;
      assert EventOf(ring, reaped'[i]) == e;
    }
  }

  lemma PostKeeps(s: Sys, c: Cqe)
    requires Inv(s) && c.userData < s.nextId && (c.userData in s.scope.ids ==> c.userData in s.armed)
    ensures Inv(DoPost(s, c))
  {
    var s' := DoPost(s, c);
    assert s'.posted[..s.head] == s.posted[..s.head];
    forall i | 0 <= i < |s'.posted|
      ensures PostedOk(s', i)
    {
      assert i < |s.posted| ==> PostedOk(s, i);
    }
    forall i, j | 0 <= i < j < |s'.posted| && s'.posted[i].Terminal() && s'.posted[i].userData in s.scope.ids
      ensures s'.posted[j].userData != s'.posted[i].userData
    {
      assert PostedOk(s, i);
    }
  }

  /** Moving the head forward, and dropping or adding events that are accounted for. */
  lemma EventsKeep(s: Sys, s': Sys)
    requires Inv(s) && s' == s.(events := s'.events, head := s'.head, held := s'.held, free := s'.free, lost := s'.lost)
    requires s.head <= s'.head <= |s.posted|
    requires forall i :: 0 <= i < |s'.events| ==>
      s'.events[i] in s.events || FromCq(s.scope.ring, s.posted[..s'.head], s'.events[i])
    ensures Inv(s')
  {
    assert s.posted[..s.head] <= s.posted[..s'.head];
    forall i | 0 <= i < |s'.events|
      ensures FromCq(s.scope.ring, s.posted[..s'.head], s'.events[i])
    {
      if s'.events[i] in s.events {
        FromCqGrows(s.scope.ring, s.posted[..s.head], s.posted[..s'.head], s'.events[i]);
      }
    }
    assert forall i :: 0 <= i < |s.posted| ==> PostedOk(s, i) ==> PostedOk(s', i);
  }

  lemma ReapEventKeeps(s: Sys)
    requires Inv(s) && s.head < |s.posted|
    ensures Inv(DoReapEvent(s))
  {
    var s' := DoReapEvent(s);
    assert s.posted[..s'.head][s.head] == s.posted[s.head];
    EventsKeep(s, s');
  }

  lemma {:induction false} ReapKeeps(s: Sys)
    requires Inv(s)
    ensures Inv(DoReap(s))
    decreases |s.posted| - s.head
  {
    if s.head < |s.posted| {
      if s.posted[s.head].Terminal() {
        ReapEventKeeps(s);
      } else {
        EventsKeep(s, DoSkip(s));
        ReapKeeps(DoSkip(s));
      }
    }
  }

  lemma IssueKeeps(s: Sys, multishot: bool)
    requires Inv(s)
    ensures Inv(Apply(s, Issue(multishot)))
  {
    var s' := Apply(s, Issue(multishot));
    forall i | 0 <= i < |s'.posted|
      ensures PostedOk(s', i)
    {
      assert PostedOk(s, i);
    }
    assert forall i :: 0 <= i < |s.posted| ==> PostedOk(s, i) && s.posted[i].userData != s.nextId;
  }

  lemma StepKeeps(s: Sys, st: Step)
    requires Inv(s) && Enabled(s, st)
    ensures Inv(Apply(s, st))
  {
    match st
    case Issue(multishot) => IssueKeeps(s, multishot);
    case Deliver(id, slot, len, more, sock, bufMore) =>
      var s1 := s.(free := if bufMore then s.free else s.free - multiset{slot});
      EventsKeep(s, s1);
      PostKeeps(s1, Carrying(s.scope.kind, id, slot, len, more, sock, bufMore));
    case Report(id, result, more, sock) => PostKeeps(s, Bare(id, result, more, sock));
    case Foreign(c) => PostKeeps(s, c);
    case ReapEvent => ReapEventKeeps(s);
    case Reap => ReapKeeps(s);
    case _ => EventsKeep(s, Apply(s, st));
  }

  // ----- conservation -----

  lemma {:induction false} CountConcat(c: Scope, a: seq<Event>, b: seq<Event>, k: Token)
    ensures c.Count(a + b, k) == c.Count(a, k) + c.Count(b, k)
  {
    if a == [] {
      assert a + b == b;
    } else {
      CountConcat(c, a[1..], b, k);
      assert (a + b)[1..] == a[1..] + b;
    }
  }

  lemma CountOne(c: Scope, es: seq<Event>, e: Event, k: Token)
    ensures c.Count(es + [e], k) == c.Count(es, k) + Bit(c.Carried(e) == Some(k))
  {
    CountConcat(c, es, [e], k);
  }

  lemma CountWithout(c: Scope, es: seq<Event>, i: nat, k: Token)
    requires i < |es|
    ensures c.Count(es, k) == c.Count(Without(es, i), k) + Bit(c.Carried(es[i]) == Some(k))
  {
    assert es == es[..i] + es[i..] && es[i..][1..] == es[i + 1..];
    CountConcat(c, es[..i], es[i..], k);
    CountConcat(c, es[..i], es[i + 1..], k);
  }

  lemma {:induction false} CountSame(c: Scope, c': Scope, es: seq<Event>, k: Token)
    requires forall i :: 0 <= i < |es| ==> c'.Carried(es[i]) == c.Carried(es[i])
    ensures c'.Count(es, k) == c.Count(es, k)
  {
    if es != [] {
      CountSame(c, c', es[1..], k);
    }
  }

  /** What a step takes out of the kernel's hands, and what it puts back. */
  function Taken(st: Step, k: Token): nat { Bit(st.Deliver? && Token(st.slot, st.bufMore) == k) }

  function Returned(s: Sys, st: Step, k: Token): nat {
    Bit((st.Release? && st.token == k) || (st.Recycle? && Whole(st.slot) == k && Recovers(s, st.slot)))
  }

  /** What it gives the kernel that was not the caller's to give. */
  function Stray(s: Sys, st: Step, slot: nat): nat { Bit(st.Recycle? && st.slot == slot && Strays(s, slot)) }

  ghost predicate Balanced(s: Sys, st: Step, s': Sys, k: Token)
    requires s.head <= |s.posted| && s'.head <= |s'.posted|
  {
    Out(s', k) + Returned(s, st, k) == Out(s, k) + Taken(st, k)
  }

  /** The kernel loses what it hands out whole and gets whatever is released or recycled, rightly or not. */
  lemma FreeBalances(s: Sys, st: Step, slot: nat)
    requires s.head <= |s.posted| && Enabled(s, st)
    ensures Apply(s, st).free[slot] + Taken(st, Whole(slot))
         == s.free[slot] + Returned(s, st, Whole(slot)) + Returned(s, st, Kept(slot)) + Stray(s, st, slot)
  {
    if st.Deliver? || st.Release? || st.Recycle? {
      MoverFree(s, st, slot);
    } else {
      OtherFree(s, st);
    }
  }

  lemma MoverFree(s: Sys, st: Step, slot: nat)
    requires s.head <= |s.posted| && Enabled(s, st) && (st.Deliver? || st.Release? || st.Recycle?)
    ensures Apply(s, st).free[slot] + Taken(st, Whole(slot))
         == s.free[slot] + Returned(s, st, Whole(slot)) + Returned(s, st, Kept(slot)) + Stray(s, st, slot)
  {
    if st.Deliver? {
      DeliverFree(s, st);
    } else if st.Release? {
      ReleaseFree(s, st);
    } else {
      RecycleFree(s, st.slot, slot);
    }
  }

  lemma DeliverFree(s: Sys, st: Step)
    requires s.head <= |s.posted| && Enabled(s, st) && st.Deliver?
    ensures Apply(s, st).free == (if st.bufMore then s.free else s.free - multiset{st.slot}) && st.slot in s.free
  {
  }

  lemma ReleaseFree(s: Sys, st: Step)
    requires s.head <= |s.posted| && Enabled(s, st) && st.Release?
    ensures Apply(s, st).free == s.free + multiset{st.token.slot}
  {
  }

  lemma RecycleFree(s: Sys, other: nat, slot: nat)
    ensures DoRecycle(s, other).free[slot]
         == s.free[slot] + Returned(s, Recycle(other), Whole(slot)) + Stray(s, Recycle(other), slot)
  {
  }

  lemma OtherFree(s: Sys, st: Step)
    requires s.head <= |s.posted| && Enabled(s, st) && !st.Deliver? && !st.Release? && !st.Recycle?
    ensures Apply(s, st).free == s.free
  {
    if st.Reap? {
      ReapFree(s);
    }
  }

  lemma {:induction false} ReapFree(s: Sys)
    requires s.head <= |s.posted|
    ensures DoReap(s).free == s.free
    decreases |s.posted| - s.head
  {
    if s.head < |s.posted| && !s.posted[s.head].Terminal() {
      ReapFree(DoSkip(s));
    }
  }

  lemma PostOut(s: Sys, c: Cqe, k: Token)
    requires s.head <= |s.posted|
    ensures Out(DoPost(s, c), k) == Out(s, k) + Bit(s.scope.Carried(EventOf(s.scope.ring, c)) == Some(k))
  {
    assert Unreaped(DoPost(s, c)) == Unreaped(s) + [EventOf(s.scope.ring, c)];
    CountOne(s.scope, Unreaped(s), EventOf(s.scope.ring, c), k);
  }

  lemma TakeHead(s: Sys, k: Token)
    requires s.head < |s.posted|
    ensures s.scope.Count(Unreaped(s), k)
         == Bit(s.scope.Carried(EventOf(s.scope.ring, s.posted[s.head])) == Some(k))
          + s.scope.Count(EventsOf(s.scope.ring, s.posted[s.head + 1..]), k)
  {
    assert Unreaped(s)[1..] == EventsOf(s.scope.ring, s.posted[s.head + 1..]);
  }

  lemma ReapEventOut(s: Sys, k: Token)
    requires s.head < |s.posted|
    ensures Out(DoReapEvent(s), k) == Out(s, k)
  {
    TakeHead(s, k);
    CountOne(s.scope, s.events, EventOf(s.scope.ring, s.posted[s.head]), k);
  }

  lemma SkipOut(s: Sys, k: Token)
    requires s.head < |s.posted|
    ensures Out(DoSkip(s), k) == Out(s, k)
  {
    TakeHead(s, k);
  }

  lemma {:induction false} ReapOut(s: Sys, k: Token)
    requires s.head <= |s.posted|
    ensures var s' := DoReap(s);
            s'.head <= |s'.posted| && Out(s', k) == Out(s, k)
    decreases |s.posted| - s.head
  {
    if s.head < |s.posted| {
      if s.posted[s.head].Terminal() {
        ReapEventOut(s, k);
      } else {
        SkipOut(s, k);
        ReapOut(DoSkip(s), k);
      }
    }
  }

  /** A new id was on no completion and no event. */
  lemma IssueOut(s: Sys, multishot: bool, k: Token)
    requires Inv(s)
    ensures Out(Apply(s, Issue(multishot)), k) == Out(s, k)
  {
    var s' := Apply(s, Issue(multishot));
    assert forall i :: 0 <= i < |s.posted| ==> PostedOk(s, i);
    forall i | 0 <= i < |s.events|
      ensures s'.scope.Carried(s.events[i]) == s.scope.Carried(s.events[i])
    {
      if s.events[i].Ring() == s.scope.ring {
        assert FromCq(s.scope.ring, s.posted[..s.head], s.events[i]);
        var j :| 0 <= j < s.head && EventOf(s.scope.ring, s.posted[..s.head][j]) == s.events[i];
        assert PostedOk(s, j);
      }
    }
    CountSame(s.scope, s'.scope, s.events, k);
    forall i | 0 <= i < |Unreaped(s)|
      ensures s'.scope.Carried(Unreaped(s)[i]) == s.scope.Carried(Unreaped(s)[i])
    {
      assert PostedOk(s, s.head + i);
    }
    CountSame(s.scope, s'.scope, Unreaped(s), k);
  }

  lemma DeliverBalances(s: Sys, st: Step, k: Token)
    requires Inv(s) && Enabled(s, st) && st.Deliver?
    ensures Balanced(s, st, Apply(s, st), k)
  {
    var Deliver(id, r, len, more, sock, bufMore) := st;
    var s1 := s.(free := if bufMore then s.free else s.free - multiset{r});
    var c := Carrying(s.scope.kind, id, r, len, more, sock, bufMore);
    RecordInvertsKernel(s.scope.kind, Ticket(s.scope.ring, id), r, len, more, sock, bufMore);
    assert s.scope.Carried(EventOf(s.scope.ring, c)) == Some(Token(r, bufMore));
    PostOut(s1, c, k);
  }

  lemma PostBalances(s: Sys, st: Step, c: Cqe, k: Token)
    requires s.head <= |s.posted| && !st.Deliver? && !st.Release? && !st.Recycle?
    requires s.scope.Carried(EventOf(s.scope.ring, c)).None?
    ensures Balanced(s, st, DoPost(s, c), k)
  {
    PostOut(s, c, k);
  }

  lemma ConsumeBalances(s: Sys, st: Step, s': Sys, i: nat, k: Token)
    requires s.head <= |s.posted| && i < |s.events| && (st.RecordEvent? || st.DropEvent?)
    requires s' == s.(events := Without(s.events, i), held := s'.held, lost := s'.lost)
    requires s'.held[k] + s'.lost[k]
          == s.held[k] + s.lost[k] + Bit(s.scope.Carried(s.events[i]) == Some(k))
    ensures Balanced(s, st, s', k)
  {
    CountWithout(s.scope, s.events, i, k);
  }

  lemma RecordBalances(s: Sys, t: Ticket, i: nat, k: Token)
    requires s.head <= |s.posted| && Enabled(s, RecordEvent(t, i))
    ensures Balanced(s, RecordEvent(t, i), DoRecord(s, t, i), k)
  {
    var s' := DoRecord(s, t, i);
    if s' != s && s.events[i].BelongsTo(t.ring, t.id) {
      ConsumeBalances(s, RecordEvent(t, i), s', i, k);
    }
  }

  lemma DropBalances(s: Sys, i: nat, k: Token)
    requires s.head <= |s.posted| && i < |s.events|
    ensures Balanced(s, DropEvent(i), DoDropEvent(s, i), k)
  {
    ConsumeBalances(s, DropEvent(i), DoDropEvent(s, i), i, k);
  }

  lemma LetGoBalances(s: Sys, k: Token, other: Token)
    requires s.head <= |s.posted| && other in s.held
    ensures Balanced(s, Release(other), DoRelease(s, other), k)
    ensures Balanced(s, Forget(other), DoForget(s, other), k)
  {
  }

  lemma RecycleBalances(s: Sys, k: Token, slot: nat)
    requires s.head <= |s.posted|
    ensures Balanced(s, Recycle(slot), DoRecycle(s, slot), k)
  {
  }

  /**
   Every step moves resources one by one: each is taken from the kernel by exactly
   the completion that carries it and returned by exactly one release.
   */
  lemma StepBalances(s: Sys, st: Step, k: Token)
    requires Inv(s) && Enabled(s, st)
    ensures Inv(Apply(s, st)) && Balanced(s, st, Apply(s, st), k)
  {
    StepKeeps(s, st);
    match st
    case Issue(multishot) => IssueOut(s, multishot, k);
    case Deliver(_, _, _, _, _, _) => DeliverBalances(s, st, k);
    case Report(id, result, more, sock) =>
      BareCarriesNothing(s.scope.kind, Ticket(s.scope.ring, id), result, more, sock);
      PostBalances(s, st, Bare(id, result, more, sock), k);
    case Foreign(c) => PostBalances(s, st, c, k);
    case Arrive(e) => CountOne(s.scope, s.events, e, k);
    case ReapEvent => ReapEventOut(s, k);
    case Reap => ReapOut(s, k);
    case RecordEvent(t, i) => RecordBalances(s, t, i, k);
    case DropEvent(i) => DropBalances(s, i, k);
    case Release(other) => LetGoBalances(s, k, other);
    case Forget(other) => LetGoBalances(s, k, other);
    case Recycle(slot) => RecycleBalances(s, k, slot);
  }
}

/**
 The owned-request protocol as a state machine: any number of rings, a
 submitting side, a completing side and a kernel, interleaved byte by byte.

 Application values are held under handles, so that a value can be moved, used
 or dropped but never copied. The kernel knows an SQE's target and memory and
 nothing else. `log` only records which request each accepted SQE came from; no
 step reads it.
 */
module Protocol {
  import opened Bytes
  import opened MsgRegion
  import opened Message
  import opened Footprint
  import opened Paths
  import opened Completion

  datatype Key = Key(ring: nat, id: nat)

  /** A value the application holds. */
  datatype Value =
    | Buffers(bufs: set<Buf>)
    | Prepared(req: Req)
    | Pending(key: Key, req: Req, sent: Option<int>)
    | Completed(req: Req, sent: Option<int>, receipt: Receipt)
    | Terminal(receipt: Receipt)
    | Notice(partial: PartialReceipt)
  {
    function Owns(): set<Buf> {
      match this
      case Buffers(bufs) => bufs
      case Prepared(req) => req.Owns()
      case Pending(_, req, _) => req.Owns()
      case Completed(req, _, _) => req.Owns()
      case _ => {}
    }

    /** The buffers safe code can read or write through this value. */
    function Exposes(): set<Buf> {
      match this
      case Prepared(req) => req.Payload()
      case Pending(_, _, _) => {}
      case _ => Owns()
    }

    predicate HoldsReq() { Prepared? || Pending? }

    predicate Releases() { Terminal? || Completed? }
  }

  datatype Sqe = Sqe(target: Target, userData: nat)

  /** One ring: both halves and the kernel's view. Queues are histories with a head. */
  datatype Ring = Ring(
    nextId: nat, cap: nat, sqes: seq<Sqe>, head: nat, done: set<nat>, cqes: seq<Cqe>, cqHead: nat)
  {
    predicate Full() { |sqes| + 1 - head > cap }
  }

  datatype Issue = Issue(pos: nat, req: Req)

  datatype Sys = Sys(
    mem: Mem, live: set<Buf>, freed: set<Buf>, nextBuf: nat,
    rings: map<nat, Ring>, nextRing: nat,
    vals: map<nat, Value>, nextVal: nat,
    log: map<Key, Issue>)

  /** The request's SQE is queued or in flight: no terminal CQE has been posted. */
  predicate Active(rings: map<nat, Ring>, log: map<Key, Issue>, k: Key) {
    k in log && k.ring in rings && log[k].pos !in rings[k.ring].done
  }

  // ----- steps -----

  datatype Step =
    | SplitOwned(cap: nat)
    | Allocate(addr: nat, len: nat)
    | Join(h: nat, other: nat)
    | Divide(h: nat, part: set<Buf>)
    | Prepare(h: nat, spans: seq<Span>)
    | Arm(group: nat)
    | Adopt(h: nat, path: OwnedPath)
    | AddPath(h: nat, other: nat)
    | AddSpans(h: nat, other: nat, spans: seq<Span>)
    | PrepareMsg(h: nat, req: Req, slot: seq<Byte>)
    | Shorten(h: nat, lens: seq<nat>)
    | AppWrite(h: nat, b: Buf, x: nat, byte: Byte)
    | IntoParts(h: nat)
    | Push(h: nat, ring: nat)
    | Submit(ring: nat, n: nat)
    | KernelWrite(ring: nat, pos: nat, x: nat, byte: Byte)
    | Post(ring: nat, pos: nat, result: int, flags: nat)
    | ReapEvent(ring: nat)
    | Redeem(h: nat, receipt: nat)
    | RecordSent(h: nat, notice: nat)
    | Drop(h: nat)

  /** The kernel has taken this SQE and has not posted its terminal CQE. */
  predicate InFlight(s: Sys, r: nat, p: nat) {
    r in s.rings && p < s.rings[r].head && p < |s.rings[r].sqes| && p !in s.rings[r].done
  }

  predicate Holds(s: Sys, h: nat) { h in s.vals }

  predicate HoldsBuffers(s: Sys, h: nat) { Holds(s, h) && s.vals[h].Buffers? }

  predicate HoldsPending(s: Sys, h: nat) { Holds(s, h) && s.vals[h].Pending? }

  /** Add a value under a handle nobody has used. */
  function Given(s: Sys, v: Value): Sys {
    s.(vals := s.vals[s.nextVal := v], nextVal := s.nextVal + 1)
  }

  /** `IoUring::split_owned`: a ring id nobody has, and ids from 1 as on every ring. */
  function DoSplit(s: Sys, cap: nat): Sys {
    s.(rings := s.rings[s.nextRing := Ring(1, cap, [], 0, {}, [], 0)], nextRing := s.nextRing + 1)
  }

  /** New storage may reuse addresses, but only ones no live buffer covers. */
  predicate CanAllocate(s: Sys, addr: nat, len: nat) {
    addr + len <= |s.mem| && forall b :: b in s.live ==> Apart(b, Buf(s.nextBuf, addr, len))
  }

  function DoAllocate(s: Sys, addr: nat, len: nat): Sys {
    var b := Buf(s.nextBuf, addr, len);
    Given(s.(live := s.live + {b}, nextBuf := s.nextBuf + 1), Buffers({b}))
  }

  function DoJoin(s: Sys, h: nat, o: nat): Sys
    requires HoldsBuffers(s, h) && HoldsBuffers(s, o)
  {
    s.(vals := (s.vals - {o})[h := Buffers(s.vals[h].bufs + s.vals[o].bufs)])
  }

  function DoDivide(s: Sys, h: nat, part: set<Buf>): Sys
    requires HoldsBuffers(s, h)
  {
    Given(s.(vals := s.vals[h := Buffers(s.vals[h].bufs - part)]), Buffers(part))
  }

  predicate CanPrepare(s: Sys, h: nat, spans: seq<Span>) {
    && Holds(s, h) && s.vals[h] == Buffers(Flat(spans).Owns())
    && forall i :: 0 <= i < |spans| ==> SpanWithin(spans[i])
  }

  /**
   `OwnedPath::adopt`, after the bytes were copied in: the scan found the NUL. From
   here on nothing looks again.
   */
  predicate CanAdopt(s: Sys, h: nat, p: OwnedPath) {
    Holds(s, h) && s.vals[h] == Buffers({p.store}) && p.Valid(s.mem)
  }

  predicate HoldsPath(s: Sys, h: nat) { Holds(s, h) && s.vals[h].Prepared? && s.vals[h].req.ByPath? }

  /** A request takes over a second path, or storage to stage or receive into, as `at` does. */
  predicate CanAddPath(s: Sys, h: nat, o: nat) { h != o && HoldsPath(s, h) && HoldsPath(s, o) && s.vals[o].req.spans == [] }

  function DoAddPath(s: Sys, h: nat, o: nat): Sys
    requires CanAddPath(s, h, o)
  {
    var q := s.vals[h].req;
    s.(vals := (s.vals - {o})[h := Prepared(ByPath(q.paths + s.vals[o].req.paths, q.spans))])
  }

  predicate CanAddSpans(s: Sys, h: nat, o: nat, spans: seq<Span>) {
    && h != o && HoldsPath(s, h) && Holds(s, o) && s.vals[o] == Buffers(Flat(spans).Owns())
    && forall i :: 0 <= i < |spans| ==> SpanWithin(spans[i])
  }

  function DoAddSpans(s: Sys, h: nat, o: nat, spans: seq<Span>): Sys
    requires CanAddSpans(s, h, o, spans)
  {
    var q := s.vals[h].req;
    s.(vals := (s.vals - {o})[h := Prepared(ByPath(q.paths, q.spans + spans))])
  }

  predicate CanPrepareMsg(s: Sys, h: nat, q: Req, slot: seq<Byte>) {
    && q.Msg? && Holds(s, h) && s.vals[h] == Buffers(q.Owns())
    && q.region.Valid() && q.region.count == |q.bufs| && |slot| == 16 && Inside(s.mem, q.region.store)
    && q.region.store !in q.bufs && (forall i, j :: 0 <= i < j < |q.bufs| ==> q.bufs[i] != q.bufs[j])
  }

  function DoPrepareMsg(s: Sys, h: nat, q: Req, slot: seq<Byte>): Sys
    requires CanPrepareMsg(s, h, q, slot)
  {
    s.(mem := Built(s.mem, q.region, q.bufs, q.named, slot), vals := s.vals[h := Prepared(q)])
  }

  predicate CanShorten(s: Sys, h: nat, lens: seq<nat>) {
    && Holds(s, h) && s.vals[h].Prepared? && s.vals[h].req.Msg?
    && |lens| == |s.vals[h].req.bufs| == s.vals[h].req.region.count
    && s.vals[h].req.region.Valid() && Inside(s.mem, s.vals[h].req.region.store)
  }

  function DoShorten(s: Sys, h: nat, lens: seq<nat>): Sys
    requires CanShorten(s, h, lens)
  {
    var q := s.vals[h].req;
    s.(mem := q.region.Stamped(s.mem, Clamped(q.bufs, lens), q.region.count))
  }

  /** Safe code writes one byte of a buffer some value lets it reach. */
  predicate CanAppWrite(s: Sys, h: nat, b: Buf, x: nat) {
    Holds(s, h) && b in s.vals[h].Exposes() && In(b, x) && x < |s.mem|
  }

  function DoWrite(s: Sys, x: nat, byte: Byte): Sys
    requires x < |s.mem|
  {
    s.(mem := s.mem[x := byte])
  }

  predicate CanIntoParts(s: Sys, h: nat) { Holds(s, h) && (s.vals[h].Prepared? || s.vals[h].Completed?) }

  function DoIntoParts(s: Sys, h: nat): Sys
    requires Holds(s, h)
  {
    s.(vals := s.vals[h := Buffers(s.vals[h].Owns())])
  }

  predicate CanPush(s: Sys, h: nat, r: nat) { Holds(s, h) && s.vals[h].Prepared? && r in s.rings }

  /** The id is spent whether or not the queue has room; a refused request stays as it was. */
  function DoPush(s: Sys, h: nat, r: nat): Sys
    requires CanPush(s, h, r)
  {
    var ring := s.rings[r];
    var id := ring.nextId;
    var q := s.vals[h].req;
    if ring.Full() then
      s.(rings := s.rings[r := ring.(nextId := id + 1)])
    else
      s.(rings := s.rings[r := ring.(nextId := id + 1, sqes := ring.sqes + [Sqe(TargetOf(q), id)])],
         vals := s.vals[h := Pending(Key(r, id), q, None)],
         log := s.log[Key(r, id) := Issue(|ring.sqes|, q)])
  }

  predicate CanSubmit(s: Sys, r: nat, n: nat) { r in s.rings && s.rings[r].head + n <= |s.rings[r].sqes| }

  function DoSubmit(s: Sys, r: nat, n: nat): Sys
    requires CanSubmit(s, r, n)
  {
    s.(rings := s.rings[r := s.rings[r].(head := s.rings[r].head + n)])
  }

  /** The kernel writes one byte it can reach from an SQE it has not completed. */
  predicate CanKernelWrite(s: Sys, r: nat, p: nat, x: nat) {
    InFlight(s, r, p) && x < |s.mem| && MayWrite(s.mem, s.rings[r].sqes[p].target, x)
  }

  /** Post a CQE for an in-flight SQE; one without `MORE` is the last. */
  function DoPost(s: Sys, r: nat, p: nat, result: int, flags: nat): Sys
    requires InFlight(s, r, p)
  {
    var ring := s.rings[r];
    var cqe := Cqe(ring.sqes[p].userData, result, flags);
    s.(rings := s.rings[r := ring.(
         cqes := ring.cqes + [cqe],
         done := if cqe.Terminal() then ring.done + {p} else ring.done)])
  }

  predicate CanReap(s: Sys, r: nat) { r in s.rings && s.rings[r].cqHead < |s.rings[r].cqes| }

  function EventValue(e: Event): Value {
    match e
    case Complete(rc) => Terminal(rc)
    case Partial(p) => Notice(p)
  }

  function NextValue(s: Sys, r: nat): Value
    requires CanReap(s, r)
  {
    EventValue(EventOf(r, s.rings[r].cqes[s.rings[r].cqHead]))
  }

  /** The ring has moved past its next CQE, whose event is not held yet. */
  function AfterReap(s: Sys, r: nat): Sys
    requires CanReap(s, r)
  {
    s.(rings := s.rings[r := s.rings[r].(cqHead := s.rings[r].cqHead + 1)])
  }

  function DoReap(s: Sys, r: nat): Sys
    requires CanReap(s, r)
  {
    Given(AfterReap(s, r), NextValue(s, r))
  }

  predicate CanRedeem(s: Sys, h: nat, rc: nat) {
    HoldsPending(s, h) && Holds(s, rc) && s.vals[rc].Terminal?
  }

  predicate Matches(s: Sys, h: nat, rc: nat)
    requires CanRedeem(s, h, rc)
  {
    s.vals[rc].receipt.BelongsTo(s.vals[h].key.ring, s.vals[h].key.id)
  }

  /** A matching receipt is traded for the finished operation; a mismatch changes nothing. */
  function DoRedeem(s: Sys, h: nat, rc: nat): Sys
    requires CanRedeem(s, h, rc)
  {
    var p := s.vals[h];
    if Matches(s, h, rc) then
      s.(vals := (s.vals - {rc})[h := Completed(p.req, p.sent, s.vals[rc].receipt)])
    else s
  }

  predicate CanRecordSent(s: Sys, h: nat, n: nat) {
    HoldsPending(s, h) && Holds(s, n) && s.vals[n].Notice?
  }

  function DoRecordSent(s: Sys, h: nat, n: nat): Sys
    requires CanRecordSent(s, h, n)
  {
    var p := s.vals[h];
    var notice := s.vals[n].partial;
    if notice.BelongsTo(p.key.ring, p.key.id) then
      s.(vals := (s.vals - {n})[h := Pending(p.key, p.req, Some(notice.result))])
    else s
  }

  /** Dropping a ticket runs no destructor; dropping anything else frees what it owns. */
  function DoDrop(s: Sys, h: nat): Sys
    requires Holds(s, h)
  {
    var v := s.vals[h];
    var s1 := s.(vals := s.vals - {h});
    if v.Pending? then s1 else s1.(live := s.live - v.Owns(), freed := s.freed + v.Owns())
  }

  predicate Enabled(s: Sys, st: Step) {
    match st
    case SplitOwned(_) => true
    case Allocate(addr, len) => CanAllocate(s, addr, len)
    case Join(h, o) => h != o && HoldsBuffers(s, h) && HoldsBuffers(s, o)
    case Divide(h, part) => HoldsBuffers(s, h) && part <= s.vals[h].bufs
    case Prepare(h, spans) => CanPrepare(s, h, spans)
    case Arm(_) => true
    case Adopt(h, p) => CanAdopt(s, h, p)
    case AddPath(h, o) => CanAddPath(s, h, o)
    case AddSpans(h, o, spans) => CanAddSpans(s, h, o, spans)
    case PrepareMsg(h, q, slot) => CanPrepareMsg(s, h, q, slot)
    case Shorten(h, lens) => CanShorten(s, h, lens)
    case AppWrite(h, b, x, _) => CanAppWrite(s, h, b, x)
    case IntoParts(h) => CanIntoParts(s, h)
    case Push(h, r) => CanPush(s, h, r)
    case Submit(r, n) => CanSubmit(s, r, n)
    case KernelWrite(r, p, x, _) => CanKernelWrite(s, r, p, x)
    case Post(r, p, _, _) => InFlight(s, r, p)
    case ReapEvent(r) => CanReap(s, r)
    case Redeem(h, rc) => CanRedeem(s, h, rc)
    case RecordSent(h, n) => CanRecordSent(s, h, n)
    case Drop(h) => Holds(s, h)
  }

  function Apply(s: Sys, st: Step): Sys
    requires Enabled(s, st)
  {
    match st
    case SplitOwned(cap) => DoSplit(s, cap)
    case Allocate(addr, len) => DoAllocate(s, addr, len)
    case Join(h, o) => DoJoin(s, h, o)
    case Divide(h, part) => DoDivide(s, h, part)
    case Prepare(h, spans) => s.(vals := s.vals[h := Prepared(Flat(spans))])
    case Arm(group) => Given(s, Prepared(Provided(group)))
    case Adopt(h, p) => s.(vals := s.vals[h := Prepared(ByPath([p], []))])
    case AddPath(h, o) => DoAddPath(s, h, o)
    case AddSpans(h, o, spans) => DoAddSpans(s, h, o, spans)
    case PrepareMsg(h, q, slot) => DoPrepareMsg(s, h, q, slot)
    case Shorten(h, lens) => DoShorten(s, h, lens)
    case AppWrite(_, _, x, byte) => DoWrite(s, x, byte)
    case IntoParts(h) => DoIntoParts(s, h)
    case Push(h, r) => DoPush(s, h, r)
    case Submit(r, n) => DoSubmit(s, r, n)
    case KernelWrite(_, _, x, byte) => DoWrite(s, x, byte)
    case Post(r, p, result, flags) => DoPost(s, r, p, result, flags)
    case ReapEvent(r) => DoReap(s, r)
    case Redeem(h, rc) => DoRedeem(s, h, rc)
    case RecordSent(h, n) => DoRecordSent(s, h, n)
    case Drop(h) => DoDrop(s, h)
  }

  // ----- the invariant, one clause per concern -----

  /** Live buffers are inside memory and pairwise apart; freed ones stay freed. */
  ghost predicate HeapOk(mem: Mem, live: set<Buf>, freed: set<Buf>, nextBuf: nat) {
    && |mem| < Pow256(8) && live !! freed
    && (forall b :: b in live ==> Inside(mem, b) && b.id < nextBuf)
    && (forall b :: b in freed ==> b.id < nextBuf)
    && (forall a, b :: a in live && b in live && a != b ==> Apart(a, b))
  }

  /** Every value owns live buffers, and no buffer has two owners. */
  ghost predicate OwnOk(live: set<Buf>, vals: map<nat, Value>, nextVal: nat) {
    && (forall h :: h in vals ==> h < nextVal && vals[h].Owns() <= live)
    && (forall h, g :: h in vals && g in vals && h != g ==> vals[h].Owns() !! vals[g].Owns())
  }

  ghost predicate HeldOk(mem: Mem, vals: map<nat, Value>) {
    forall h :: h in vals && vals[h].HoldsReq() ==> vals[h].req.Ok(mem)
  }

  /** The log and the submission histories name each other, one to one. */
  ghost predicate LogOk(rings: map<nat, Ring>, nextRing: nat, log: map<Key, Issue>) {
    && (forall r :: r in rings ==> r < nextRing && rings[r].head <= |rings[r].sqes|)
    && (forall k :: k in log ==> Logged(rings, log, k))
    && (forall r, p :: r in rings && 0 <= p < |rings[r].sqes| ==> NamedBy(log, r, rings[r].sqes, p))
  }

  predicate Logged(rings: map<nat, Ring>, log: map<Key, Issue>, k: Key)
    requires k in log
  {
    && k.ring in rings && log[k].pos < |rings[k.ring].sqes| && k.id < rings[k.ring].nextId
    && rings[k.ring].sqes[log[k].pos] == Sqe(TargetOf(log[k].req), k.id)
  }

  predicate NamedBy(log: map<Key, Issue>, r: nat, sqes: seq<Sqe>, p: nat)
    requires p < |sqes|
  {
    var k := Key(r, sqes[p].userData);
    k in log && log[k].pos == p
  }

  /** What the kernel may still touch is live and staged correctly. */
  ghost predicate ActiveOk(mem: Mem, live: set<Buf>, rings: map<nat, Ring>, log: map<Key, Issue>) {
    forall k :: Active(rings, log, k) ==> log[k].req.Owns() <= live && log[k].req.Ok(mem)
  }

  /** Two requests the kernel may touch share no buffer. */
  ghost predicate ApartOk(rings: map<nat, Ring>, log: map<Key, Issue>) {
    forall k, j :: Active(rings, log, k) && Active(rings, log, j) && k != j ==>
      log[k].req.Owns() !! log[j].req.Owns()
  }

  /** Only the request's own ticket owns anything the kernel may touch. */
  ghost predicate TieOk(rings: map<nat, Ring>, log: map<Key, Issue>, vals: map<nat, Value>) {
    forall h, k :: h in vals && Active(rings, log, k) ==>
      vals[h].Owns() !! log[k].req.Owns() || (vals[h].Pending? && vals[h].key == k)
  }

  /** Every ticket is for a logged request, and no two are for the same one. */
  ghost predicate PendOk(rings: map<nat, Ring>, log: map<Key, Issue>, vals: map<nat, Value>) {
    && (forall h :: h in vals && vals[h].Pending? ==> vals[h].key in log && log[vals[h].key].req == vals[h].req)
    && (forall h, g :: h in vals && g in vals && h != g && vals[h].Pending? && vals[g].Pending? ==>
          vals[h].key != vals[g].key)
    && (forall h :: h in vals && vals[h].Pending? && vals[h].sent.Some? ==>
          Reported(rings, vals[h].key, vals[h].sent.value))
  }

  /** The kernel posted, and someone reaped, a non-terminal CQE with this result. */
  ghost predicate Reported(rings: map<nat, Ring>, k: Key, result: int) {
    k.ring in rings &&
    exists c :: c in Reaped(rings[k.ring]) && c.userData == k.id && c.result == result && !c.Terminal()
  }

  function Reaped(ring: Ring): seq<Cqe> {
    if ring.cqHead <= |ring.cqes| then ring.cqes[..ring.cqHead] else []
  }

  /** Completions name logged, submitted requests; a terminal one is the last. */
  ghost predicate CqOk(rings: map<nat, Ring>, log: map<Key, Issue>) {
    forall r :: r in rings ==> RingCqOk(r, rings[r], log)
  }

  ghost predicate RingCqOk(r: nat, ring: Ring, log: map<Key, Issue>) {
    && ring.cqHead <= |ring.cqes|
    && (forall i :: 0 <= i < |ring.cqes| ==> CqeOk(r, ring, log, ring.cqes[i]))
    && (forall i, j :: 0 <= i < j < |ring.cqes| && ring.cqes[i].Terminal() ==>
          ring.cqes[i].userData != ring.cqes[j].userData)
  }

  predicate CqeOk(r: nat, ring: Ring, log: map<Key, Issue>, c: Cqe) {
    var k := Key(r, c.userData);
    k in log && (c.Terminal() ==> log[k].pos in ring.done)
  }

  /** Every receipt is a terminal CQE that was reaped, and no CQE made two. */
  ghost predicate ReceiptOk(rings: map<nat, Ring>, vals: map<nat, Value>) {
    && (forall h :: h in vals && vals[h].Releases() ==> Minted(rings, vals[h].receipt))
    && (forall h, g :: h in vals && g in vals && h != g && vals[h].Releases() && vals[g].Releases() ==>
          KeyOf(vals[h].receipt) != KeyOf(vals[g].receipt))
    && (forall h :: h in vals && vals[h].Notice? ==>
          Reported(rings, Key(vals[h].partial.ring, vals[h].partial.id), vals[h].partial.result))
  }

  function KeyOf(rc: Receipt): Key { Key(rc.ring, rc.id) }

  predicate Minted(rings: map<nat, Ring>, rc: Receipt) {
    && rc.ring in rings
    && Cqe(rc.id, rc.result, rc.flags) in Reaped(rings[rc.ring])
    && !Has(rc.flags, MORE)
  }

  ghost predicate Inv(s: Sys) {
    && HeapOk(s.mem, s.live, s.freed, s.nextBuf)
    && OwnOk(s.live, s.vals, s.nextVal)
    && HeldOk(s.mem, s.vals)
    && LogOk(s.rings, s.nextRing, s.log)
    && ActiveOk(s.mem, s.live, s.rings, s.log)
    && ApartOk(s.rings, s.log)
    && TieOk(s.rings, s.log, s.vals)
    && PendOk(s.rings, s.log, s.vals)
    && CqOk(s.rings, s.log)
    && ReceiptOk(s.rings, s.vals)
  }

  /** No rings, no buffers, no values: where every run starts. */
  predicate Initial(s: Sys) {
    && |s.mem| < Pow256(8) && s.live == {} && s.freed == {} && s.rings == map[]
    && s.vals == map[] && s.log == map[] && s.nextRing == 1
  }

  lemma InitialInv(s: Sys)
    requires Initial(s)
    ensures Inv(s)
  {
  }
}

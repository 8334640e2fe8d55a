/**
 Every step of the protocol keeps the invariant.

 A step is a combination of few moves: put a value under a handle, remove one,
 change memory, change the rings, or log an accepted SQE. Each move has one
 lemma saying what it needs; a step's proof shows that its moves have it.
 */
module ProtocolSteps {
  import opened Bytes
  import opened MsgRegion
  import opened Message
  import opened Footprint
  import opened Paths
  import opened Completion
  import opened Protocol

  // ----- moving values -----

  /** `v` owns nothing that another value owns. */
  ghost predicate Alone(vals: map<nat, Value>, h: nat, v: Value) {
    forall g :: g in vals && g != h ==> vals[g].Owns() !! v.Owns()
  }

  /** `v` owns nothing the kernel may touch, unless it is that request's ticket. */
  ghost predicate Tied(rings: map<nat, Ring>, log: map<Key, Issue>, v: Value) {
    forall k :: Active(rings, log, k) ==>
      v.Owns() !! log[k].req.Owns() || (v.Pending? && v.key == k)
  }

  ghost predicate TicketFits(s: Sys, h: nat, v: Value) {
    v.Pending? ==>
      && v.key in s.log && s.log[v.key].req == v.req
      && (forall g :: g in s.vals && g != h && s.vals[g].Pending? ==> s.vals[g].key != v.key)
      && (v.sent.Some? ==> Reported(s.rings, v.key, v.sent.value))
  }

  ghost predicate ReceiptFits(s: Sys, h: nat, v: Value) {
    && (v.Releases() ==>
          && Minted(s.rings, v.receipt)
          && forall g :: g in s.vals && g != h && s.vals[g].Releases() ==>
               KeyOf(s.vals[g].receipt) != KeyOf(v.receipt))
    && (v.Notice? ==> Reported(s.rings, Key(v.partial.ring, v.partial.id), v.partial.result))
  }

  /** What it takes for handle `h` to hold `v`. */
  ghost predicate Fits(s: Sys, h: nat, v: Value) {
    && h < s.nextVal && v.Owns() <= s.live
    && Alone(s.vals, h, v) && Tied(s.rings, s.log, v)
    && (v.HoldsReq() ==> v.req.Ok(s.mem))
    && TicketFits(s, h, v) && ReceiptFits(s, h, v)
  }

  lemma PutOwn(live: set<Buf>, vals: map<nat, Value>, nextVal: nat, h: nat, v: Value)
    requires OwnOk(live, vals, nextVal) && h < nextVal && v.Owns() <= live && Alone(vals, h, v)
    ensures OwnOk(live, vals[h := v], nextVal)
  {
  }

  lemma PutTie(rings: map<nat, Ring>, log: map<Key, Issue>, vals: map<nat, Value>, h: nat, v: Value)
    requires TieOk(rings, log, vals) && Tied(rings, log, v)
    ensures TieOk(rings, log, vals[h := v])
  {
  }

  lemma PutTicket(s: Sys, h: nat, v: Value)
    requires PendOk(s.rings, s.log, s.vals) && TicketFits(s, h, v)
    ensures PendOk(s.rings, s.log, s.vals[h := v])
  {
  }

  lemma PutReceipt(s: Sys, h: nat, v: Value)
    requires ReceiptOk(s.rings, s.vals) && ReceiptFits(s, h, v)
    ensures ReceiptOk(s.rings, s.vals[h := v])
  {
  }

  lemma PutKeeps(s: Sys, h: nat, v: Value)
    requires Inv(s) && Fits(s, h, v)
    ensures Inv(s.(vals := s.vals[h := v]))
  {
    PutOwn(s.live, s.vals, s.nextVal, h, v);
    PutTie(s.rings, s.log, s.vals, h, v);
    PutTicket(s, h, v);
    PutReceipt(s, h, v);
  }

  function WithRoom(s: Sys): Sys { s.(nextVal := s.nextVal + 1) }

  lemma RoomKeeps(s: Sys)
    requires Inv(s)
    ensures Inv(WithRoom(s))
  {
  }

  lemma GiveKeeps(s: Sys, v: Value)
    requires Inv(s) && Fits(WithRoom(s), s.nextVal, v)
    ensures Inv(Given(s, v))
  {
    RoomKeeps(s);
    PutKeeps(WithRoom(s), s.nextVal, v);
  }

  lemma RemoveKeeps(s: Sys, h: nat)
    requires Inv(s)
    ensures Inv(s.(vals := s.vals - {h}))
  {
  }

  /** A value that owns no more than its handle already did, and promises nothing. */
  lemma PlainFits(s: Sys, h: nat, v: Value)
    requires OwnOk(s.live, s.vals, s.nextVal) && TieOk(s.rings, s.log, s.vals)
    requires h in s.vals && !s.vals[h].Pending? && v.Owns() <= s.vals[h].Owns()
    requires v.Buffers? || (v.Prepared? && v.req.Ok(s.mem))
    ensures Fits(s, h, v)
  {
    forall k | Active(s.rings, s.log, k)
      ensures v.Owns() !! s.log[k].req.Owns()
    {
      assert s.vals[h].Owns() !! s.log[k].req.Owns();
    }
  }

  // ----- changing memory -----

  lemma MemKeeps(s: Sys, m: Mem)
    requires Inv(s) && |m| == |s.mem|
    requires HeldOk(m, s.vals)
    requires forall k :: Active(s.rings, s.log, k) ==> s.log[k].req.Ok(m)
    ensures Inv(s.(mem := m))
  {
  }

  /** Bytes changed inside one live buffer do not matter to requests that do not stage in it. */
  lemma ElsewhereOk(s: Sys, m: Mem, b: Buf, q: Req)
    requires HeapOk(s.mem, s.live, s.freed, s.nextBuf) && b in s.live
    requires SameOutside(s.mem, m, b)
    requires q.Ok(s.mem) && q.Owns() <= s.live && b !in q.Pointers()
    ensures q.Ok(m)
  {
    PointersOwned(q);
    if q.Msg? {
      assert q.region.store in q.Pointers();
    }
    forall x: nat | x < |m| && q.IsPointer(x)
      ensures m[x] == s.mem[x]
    {
      PointersInside(s.mem, q, x);
      var c :| c in q.Pointers() && In(c, x);
      assert c in s.live && Apart(b, c);
    }
    OkFrame(s.mem, m, q);
  }

  // ----- changing the rings -----

  /** The same requests or fewer are active, and nothing reaped is forgotten. */
  ghost predicate Advances(rings: map<nat, Ring>, rings': map<nat, Ring>, log: map<Key, Issue>) {
    && (forall k :: Active(rings', log, k) ==> Active(rings, log, k))
    && (forall r :: r in rings ==> r in rings' && Reaped(rings[r]) <= Reaped(rings'[r]))
  }

  lemma ReportedGrows(rings: map<nat, Ring>, rings': map<nat, Ring>, log: map<Key, Issue>, k: Key, result: int)
    requires Advances(rings, rings', log) && Reported(rings, k, result)
    ensures Reported(rings', k, result)
  {
    var c :| c in Reaped(rings[k.ring]) && c.userData == k.id && c.result == result && !c.Terminal();
    assert c in Reaped(rings'[k.ring]);
  }

  lemma RingsKeepTickets(s: Sys, rings': map<nat, Ring>)
    requires PendOk(s.rings, s.log, s.vals) && ReceiptOk(s.rings, s.vals)
    requires Advances(s.rings, rings', s.log)
    ensures PendOk(rings', s.log, s.vals) && ReceiptOk(rings', s.vals)
  {
    forall k: Key, result: int | Reported(s.rings, k, result)
      ensures Reported(rings', k, result)
    {
      ReportedGrows(s.rings, rings', s.log, k, result);
    }
  }

  lemma RingsKeep(s: Sys, rings': map<nat, Ring>, nextRing': nat)
    requires Inv(s) && Advances(s.rings, rings', s.log)
    requires LogOk(rings', nextRing', s.log) && CqOk(rings', s.log)
    ensures Inv(s.(rings := rings', nextRing := nextRing'))
  {
    RingsKeepTickets(s, rings');
  }

  predicate OnlyCounters(o: Ring, ring: Ring) {
    && ring.sqes == o.sqes && ring.done == o.done && ring.cqes == o.cqes
    && ring.nextId >= o.nextId && o.head <= ring.head <= |ring.sqes|
    && o.cqHead <= ring.cqHead <= |ring.cqes|
  }

  /** Counters may move; histories, terminal marks and completions stay. */
  lemma CountersKeep(s: Sys, r: nat, ring: Ring)
    requires Inv(s) && r in s.rings && OnlyCounters(s.rings[r], ring)
    ensures Inv(s.(rings := s.rings[r := ring]))
  {
    CountersLog(s, r, ring);
    RingsKeep(s, s.rings[r := ring], s.nextRing);
  }

  lemma CountersLog(s: Sys, r: nat, ring: Ring)
    requires LogOk(s.rings, s.nextRing, s.log) && CqOk(s.rings, s.log)
    requires r in s.rings && OnlyCounters(s.rings[r], ring)
    ensures var rings' := s.rings[r := ring];
            && LogOk(rings', s.nextRing, s.log) && CqOk(rings', s.log)
            && Advances(s.rings, rings', s.log)
  {
    var rings' := s.rings[r := ring];
    forall k | k in s.log
      ensures Logged(rings', s.log, k)
    {
      assert Logged(s.rings, s.log, k);
    }
    forall t, p | t in rings' && 0 <= p < |rings'[t].sqes|
      ensures NamedBy(s.log, t, rings'[t].sqes, p)
    {
      assert NamedBy(s.log, t, s.rings[t].sqes, p);
    }
    assert RingCqOk(r, s.rings[r], s.log);
    forall i | 0 <= i < |ring.cqes|
      ensures CqeOk(r, ring, s.log, ring.cqes[i])
    {
      assert CqeOk(r, s.rings[r], s.log, s.rings[r].cqes[i]);
    }
  }

  // ----- the steps -----

  lemma SplitKeeps(s: Sys, cap: nat)
    requires Inv(s)
    ensures Inv(DoSplit(s, cap))
  {
    var rings' := s.rings[s.nextRing := Ring(1, cap, [], 0, {}, [], 0)];
    SplitLog(s, cap);
    RingsKeep(s, rings', s.nextRing + 1);
  }

  lemma SplitLog(s: Sys, cap: nat)
    requires LogOk(s.rings, s.nextRing, s.log) && CqOk(s.rings, s.log)
    ensures var s' := DoSplit(s, cap);
            && LogOk(s'.rings, s'.nextRing, s.log) && CqOk(s'.rings, s.log)
            && Advances(s.rings, s'.rings, s.log)
  {
    var s' := DoSplit(s, cap);
    assert s.nextRing !in s.rings;
    forall k | k in s.log
      ensures Logged(s'.rings, s.log, k) && k.ring in s.rings
    {
      assert Logged(s.rings, s.log, k);
    }
    forall t, p | t in s'.rings && 0 <= p < |s'.rings[t].sqes|
      ensures NamedBy(s.log, t, s'.rings[t].sqes, p)
    {
      assert NamedBy(s.log, t, s.rings[t].sqes, p);
    }
  }

  lemma SubmitKeeps(s: Sys, r: nat, n: nat)
    requires Inv(s) && CanSubmit(s, r, n)
    ensures Inv(DoSubmit(s, r, n))
  {
    var ring := s.rings[r].(head := s.rings[r].head + n);
    HeadsInRange(s, r);
    CountersKeep(s, r, ring);
    assert DoSubmit(s, r, n) == s.(rings := s.rings[r := ring]);
  }

  lemma HeadsInRange(s: Sys, r: nat)
    requires LogOk(s.rings, s.nextRing, s.log) && CqOk(s.rings, s.log) && r in s.rings
    ensures s.rings[r].head <= |s.rings[r].sqes| && s.rings[r].cqHead <= |s.rings[r].cqes|
  {
    assert RingCqOk(r, s.rings[r], s.log);
  }

  lemma AllocateKeeps(s: Sys, addr: nat, len: nat)
    requires Inv(s) && CanAllocate(s, addr, len)
    ensures Inv(DoAllocate(s, addr, len))
  {
    var b := Buf(s.nextBuf, addr, len);
    var s1 := s.(live := s.live + {b}, nextBuf := s.nextBuf + 1);
    assert b !in s.live && b !in s.freed;
    assert Inv(s1);
    forall g | g in s.vals
      ensures s.vals[g].Owns() !! {b}
    {
      assert s.vals[g].Owns() <= s.live;
    }
    forall k | Active(s.rings, s.log, k)
      ensures s.log[k].req.Owns() !! {b}
    {
      assert s.log[k].req.Owns() <= s.live;
    }
    GiveKeeps(s1, Buffers({b}));
  }

  lemma JoinFits(s: Sys, h: nat, o: nat)
    requires OwnOk(s.live, s.vals, s.nextVal) && TieOk(s.rings, s.log, s.vals)
    requires h != o && HoldsBuffers(s, h) && HoldsBuffers(s, o)
    ensures Fits(s.(vals := s.vals - {o}), h, Buffers(s.vals[h].bufs + s.vals[o].bufs))
  {
    forall k | Active(s.rings, s.log, k)
      ensures (s.vals[h].bufs + s.vals[o].bufs) !! s.log[k].req.Owns()
    {
      assert s.vals[h].Owns() !! s.log[k].req.Owns();
      assert s.vals[o].Owns() !! s.log[k].req.Owns();
    }
  }

  lemma JoinKeeps(s: Sys, h: nat, o: nat)
    requires Inv(s) && h != o && HoldsBuffers(s, h) && HoldsBuffers(s, o)
    ensures Inv(DoJoin(s, h, o))
  {
    RemoveKeeps(s, o);
    JoinFits(s, h, o);
    PutKeeps(s.(vals := s.vals - {o}), h, Buffers(s.vals[h].bufs + s.vals[o].bufs));
  }

  lemma DivideFits(s: Sys, h: nat, part: set<Buf>, s1: Sys)
    requires OwnOk(s.live, s.vals, s.nextVal) && TieOk(s.rings, s.log, s.vals)
    requires HoldsBuffers(s, h) && part <= s.vals[h].bufs
    requires s1 == s.(vals := s.vals[h := Buffers(s.vals[h].bufs - part)])
    ensures Fits(WithRoom(s1), s1.nextVal, Buffers(part))
  {
    forall k | Active(s.rings, s.log, k)
      ensures part !! s.log[k].req.Owns()
    {
      assert s.vals[h].Owns() !! s.log[k].req.Owns();
    }
    forall g | g in s1.vals
      ensures s1.vals[g].Owns() !! part
    {
      if g != h {
        assert s.vals[g].Owns() !! s.vals[h].Owns();
      }
    }
  }

  lemma DivideKeeps(s: Sys, h: nat, part: set<Buf>)
    requires Inv(s) && HoldsBuffers(s, h) && part <= s.vals[h].bufs
    ensures Inv(DoDivide(s, h, part))
  {
    var rest := Buffers(s.vals[h].bufs - part);
    var s1 := s.(vals := s.vals[h := rest]);
    PlainFits(s, h, rest);
    PutKeeps(s, h, rest);
    DivideFits(s, h, part, s1);
    GiveKeeps(s1, Buffers(part));
  }

  lemma PrepareKeeps(s: Sys, h: nat, spans: seq<Span>)
    requires Inv(s) && CanPrepare(s, h, spans)
    ensures Inv(s.(vals := s.vals[h := Prepared(Flat(spans))]))
  {
    PlainFits(s, h, Prepared(Flat(spans)));
    PutKeeps(s, h, Prepared(Flat(spans)));
  }

  lemma ArmKeeps(s: Sys, group: nat)
    requires Inv(s)
    ensures Inv(Given(s, Prepared(Provided(group))))
  {
    GiveKeeps(s, Prepared(Provided(group)));
  }

  lemma AdoptKeeps(s: Sys, h: nat, p: OwnedPath)
    requires Inv(s) && CanAdopt(s, h, p)
    ensures Inv(s.(vals := s.vals[h := Prepared(ByPath([p], []))]))
  {
    var v := Prepared(ByPath([p], []));
    assert v.Owns() == {p.store};
    PlainFits(s, h, v);
    PutKeeps(s, h, v);
  }

  /** Two values' storage under one handle, in a request that is good. */
  lemma MergeKeeps(s: Sys, h: nat, o: nat, v: Value)
    requires Inv(s) && h != o && Holds(s, h) && Holds(s, o) && !s.vals[h].Pending? && !s.vals[o].Pending?
    requires v.Prepared? && v.req.Ok(s.mem) && v.Owns() == s.vals[h].Owns() + s.vals[o].Owns()
    ensures Inv(s.(vals := (s.vals - {o})[h := v]))
  {
    RemoveKeeps(s, o);
    MergeFits(s, h, o, v);
    PutKeeps(s.(vals := s.vals - {o}), h, v);
  }

  lemma MergeFits(s: Sys, h: nat, o: nat, v: Value)
    requires OwnOk(s.live, s.vals, s.nextVal) && TieOk(s.rings, s.log, s.vals)
    requires h != o && Holds(s, h) && Holds(s, o) && !s.vals[h].Pending? && !s.vals[o].Pending?
    requires v.Prepared? && v.req.Ok(s.mem) && v.Owns() == s.vals[h].Owns() + s.vals[o].Owns()
    ensures Fits(s.(vals := s.vals - {o}), h, v)
  {
    forall k | Active(s.rings, s.log, k)
      ensures v.Owns() !! s.log[k].req.Owns()
    {
      assert s.vals[h].Owns() !! s.log[k].req.Owns();
      assert s.vals[o].Owns() !! s.log[k].req.Owns();
    }
  }

  lemma AddPathOwns(ps: seq<OwnedPath>, qs: seq<OwnedPath>, ss: seq<Span>)
    ensures ByPath(ps + qs, ss).Owns() == ByPath(ps, ss).Owns() + ByPath(qs, []).Owns()
  {
    assert forall p :: p in ps + qs <==> p in ps || p in qs;
  }

  lemma AddPathKeeps(s: Sys, h: nat, o: nat)
    requires Inv(s) && CanAddPath(s, h, o)
    ensures Inv(DoAddPath(s, h, o))
  {
    var q, r := s.vals[h].req, s.vals[o].req;
    var both := ByPath(q.paths + r.paths, q.spans);
    AddPathOwns(q.paths, r.paths, q.spans);
    forall i, j | 0 <= i < |r.paths| && 0 <= j < |q.spans|
      ensures r.paths[i].store != q.spans[j].buf
    {
      assert s.vals[h].Owns() !! s.vals[o].Owns();
      assert r.paths[i] in r.paths && q.spans[j] in q.spans;
      assert r.paths[i].store in r.Owns() && q.spans[j].buf in q.Owns();
    }
    assert both.Ok(s.mem) by {
      assert s.vals[h].HoldsReq() && s.vals[o].HoldsReq() && q.Ok(s.mem) && r.Ok(s.mem);
    }
    MergeKeeps(s, h, o, Prepared(both));
  }

  lemma AddSpansOwns(ps: seq<OwnedPath>, ss: seq<Span>, ts: seq<Span>)
    ensures ByPath(ps, ss + ts).Owns() == ByPath(ps, ss).Owns() + Flat(ts).Owns()
  {
    assert forall t :: t in ss + ts <==> t in ss || t in ts;
  }

  lemma AddSpansKeeps(s: Sys, h: nat, o: nat, spans: seq<Span>)
    requires Inv(s) && CanAddSpans(s, h, o, spans)
    ensures Inv(DoAddSpans(s, h, o, spans))
  {
    var q := s.vals[h].req;
    var both := ByPath(q.paths, q.spans + spans);
    AddSpansOwns(q.paths, q.spans, spans);
    forall i, j | 0 <= i < |q.paths| && 0 <= j < |spans|
      ensures q.paths[i].store != spans[j].buf
    {
      assert s.vals[h].Owns() !! s.vals[o].Owns();
      assert q.paths[i] in q.paths && spans[j] in spans;
      assert q.paths[i].store in q.Owns() && spans[j].buf in Flat(spans).Owns();
    }
    assert both.Ok(s.mem) by {
      assert s.vals[h].HoldsReq() && q.Ok(s.mem);
    }
    MergeKeeps(s, h, o, Prepared(both));
  }

  lemma IntoPartsKeeps(s: Sys, h: nat)
    requires Inv(s) && CanIntoParts(s, h)
    ensures Inv(DoIntoParts(s, h))
  {
    PlainFits(s, h, Buffers(s.vals[h].Owns()));
    PutKeeps(s, h, Buffers(s.vals[h].Owns()));
  }

  lemma DropKeeps(s: Sys, h: nat)
    requires Inv(s) && Holds(s, h)
    ensures Inv(DoDrop(s, h))
  {
    var v := s.vals[h];
    var s1 := s.(vals := s.vals - {h});
    RemoveKeeps(s, h);
    if !v.Pending? {
      var s2 := s1.(live := s.live - v.Owns(), freed := s.freed + v.Owns());
      assert OwnOk(s2.live, s2.vals, s2.nextVal) by {
        forall g | g in s2.vals
          ensures s2.vals[g].Owns() <= s2.live
        {
          assert s.vals[g].Owns() !! v.Owns();
        }
      }
      assert ActiveOk(s2.mem, s2.live, s2.rings, s2.log) by {
        forall k | Active(s.rings, s.log, k)
          ensures s.log[k].req.Owns() <= s2.live
        {
          assert v.Owns() !! s.log[k].req.Owns();
        }
      }
    }
  }

  lemma ReapKeeps(s: Sys, r: nat)
    requires Inv(s) && CanReap(s, r)
    ensures Inv(DoReap(s, r))
  {
    AfterReapKeeps(s, r);
    ReapFits(s, r);
    GiveKeeps(AfterReap(s, r), NextValue(s, r));
  }

  lemma AfterReapKeeps(s: Sys, r: nat)
    requires Inv(s) && CanReap(s, r)
    ensures Inv(AfterReap(s, r))
  {
    var ring := s.rings[r].(cqHead := s.rings[r].cqHead + 1);
    HeadsInRange(s, r);
    assert OnlyCounters(s.rings[r], ring);
    CountersKeep(s, r, ring);
    assert AfterReap(s, r) == s.(rings := s.rings[r := ring]);
  }

  lemma ReapFits(s: Sys, r: nat)
    requires Inv(s) && CanReap(s, r)
    ensures Fits(WithRoom(AfterReap(s, r)), s.nextVal, NextValue(s, r))
  {
    var ring := s.rings[r];
    var c := ring.cqes[ring.cqHead];
    var ring' := ring.(cqHead := ring.cqHead + 1);
    assert ring'.cqes[..ring'.cqHead][ring.cqHead] == c;
    assert c in Reaped(ring');
    ReapedOnce(s, r);
  }

  /** No receipt already held comes from the terminal CQE about to be reaped. */
  lemma ReapedOnce(s: Sys, r: nat)
    requires Inv(s) && CanReap(s, r)
    ensures var c := s.rings[r].cqes[s.rings[r].cqHead];
            forall g :: g in s.vals && s.vals[g].Releases() ==>
              KeyOf(s.vals[g].receipt) != Key(r, c.userData)
  {
    var ring := s.rings[r];
    var c := ring.cqes[ring.cqHead];
    assert RingCqOk(r, ring, s.log);
    forall g | g in s.vals && s.vals[g].Releases()
      ensures KeyOf(s.vals[g].receipt) != Key(r, c.userData)
    {
      var rc := s.vals[g].receipt;
      assert Minted(s.rings, rc);
      if rc.ring == r {
        var i :| 0 <= i < ring.cqHead && ring.cqes[i] == Cqe(rc.id, rc.result, rc.flags);
        assert ring.cqes[i].Terminal();
      }
    }
  }

  lemma PostKeeps(s: Sys, r: nat, p: nat, result: int, flags: nat)
    requires Inv(s) && InFlight(s, r, p)
    ensures Inv(DoPost(s, r, p, result, flags))
  {
    var s' := DoPost(s, r, p, result, flags);
    var ring, ring' := s.rings[r], s'.rings[r];
    assert LogOk(s'.rings, s.nextRing, s.log) by {
      forall k | k in s.log
        ensures Logged(s'.rings, s.log, k)
      {
        assert Logged(s.rings, s.log, k);
      }
      forall t, q | t in s'.rings && 0 <= q < |s'.rings[t].sqes|
        ensures NamedBy(s.log, t, s'.rings[t].sqes, q)
      {
        assert NamedBy(s.log, t, s.rings[t].sqes, q);
      }
    }
    PostCq(s, r, p, result, flags);
    assert Reaped(ring) == Reaped(ring') by {
      HeadsInRange(s, r);
      assert ring'.cqes[..ring.cqHead] == ring.cqes[..ring.cqHead];
    }
    RingsKeep(s, s'.rings, s.nextRing);
  }

  /** The new CQE names its SQE; if an earlier one was terminal, that SQE was done. */
  lemma PostCq(s: Sys, r: nat, p: nat, result: int, flags: nat)
    requires Inv(s) && InFlight(s, r, p)
    ensures CqOk(DoPost(s, r, p, result, flags).rings, s.log)
  {
    var s' := DoPost(s, r, p, result, flags);
    var ring, ring' := s.rings[r], s'.rings[r];
    var n := |ring.cqes|;
    assert RingCqOk(r, ring, s.log) && NamedBy(s.log, r, ring.sqes, p);
    forall i | 0 <= i <= n
      ensures CqeOk(r, ring', s.log, ring'.cqes[i])
    {
      if i < n {
        assert CqeOk(r, ring, s.log, ring.cqes[i]);
      }
    }
    forall i, j | 0 <= i < j <= n && ring'.cqes[i].Terminal()
      ensures ring'.cqes[i].userData != ring'.cqes[j].userData
    {
      assert CqeOk(r, ring, s.log, ring.cqes[i]);
    }
    forall t | t in s'.rings
      ensures RingCqOk(t, s'.rings[t], s.log)
    {
      if t != r {
        assert RingCqOk(t, s.rings[t], s.log);
      }
    }
  }

  /** A receipt in hand means its request is no longer active. */
  lemma MintedDone(s: Sys, rc: Receipt)
    requires Inv(s) && Minted(s.rings, rc)
    ensures KeyOf(rc) in s.log && s.log[KeyOf(rc)].pos in s.rings[rc.ring].done
    ensures !Active(s.rings, s.log, KeyOf(rc))
  {
    var ring := s.rings[rc.ring];
    assert RingCqOk(rc.ring, ring, s.log);
    var i :| 0 <= i < ring.cqHead && ring.cqes[i] == Cqe(rc.id, rc.result, rc.flags);
    assert CqeOk(rc.ring, ring, s.log, ring.cqes[i]);
  }

  /** With its receipt in hand, nothing a ticket owns is still the kernel's. */
  lemma RedeemFits(s: Sys, h: nat, rc: nat)
    requires OwnOk(s.live, s.vals, s.nextVal) && TieOk(s.rings, s.log, s.vals) && ReceiptOk(s.rings, s.vals)
    requires CanRedeem(s, h, rc) && !Active(s.rings, s.log, s.vals[h].key)
    ensures Fits(s.(vals := s.vals - {rc}), h,
                 Completed(s.vals[h].req, s.vals[h].sent, s.vals[rc].receipt))
  {
    var p := s.vals[h];
    forall k | Active(s.rings, s.log, k)
      ensures p.Owns() !! s.log[k].req.Owns()
    {
      assert k != p.key;
    }
  }

  lemma RedeemKeeps(s: Sys, h: nat, rc: nat)
    requires Inv(s) && CanRedeem(s, h, rc)
    ensures Inv(DoRedeem(s, h, rc))
  {
    var p, receipt := s.vals[h], s.vals[rc].receipt;
    if receipt.BelongsTo(p.key.ring, p.key.id) {
      MintedDone(s, receipt);
      RemoveKeeps(s, rc);
      RedeemFits(s, h, rc);
      PutKeeps(s.(vals := s.vals - {rc}), h, Completed(p.req, p.sent, receipt));
    }
  }

  lemma RecordSentKeeps(s: Sys, h: nat, n: nat)
    requires Inv(s) && CanRecordSent(s, h, n)
    ensures Inv(DoRecordSent(s, h, n))
  {
    var p, notice := s.vals[h], s.vals[n].partial;
    if notice.BelongsTo(p.key.ring, p.key.id) {
      var v := Pending(p.key, p.req, Some(notice.result));
      assert Reported(s.rings, p.key, notice.result);
      var s1 := s.(vals := s.vals - {n});
      RemoveKeeps(s, n);
      PutKeeps(s1, h, v);
    }
  }

  // ----- steps that write memory -----

  /** Every byte outside `b` kept, and the writer's own request still good. */
  lemma WriteKeeps(s: Sys, m: Mem, b: Buf, h: nat)
    requires Inv(s) && b in s.live && SameOutside(s.mem, m, b)
    requires h in s.vals && b in s.vals[h].Owns() && !s.vals[h].Pending?
    requires s.vals[h].HoldsReq() ==> s.vals[h].req.Ok(m)
    ensures Inv(s.(mem := m))
  {
    forall g | g in s.vals && s.vals[g].HoldsReq()
      ensures s.vals[g].req.Ok(m)
    {
      if g != h {
        assert s.vals[g].Owns() !! s.vals[h].Owns();
        PointersOwned(s.vals[g].req);
        ElsewhereOk(s, m, b, s.vals[g].req);
      }
    }
    forall k | Active(s.rings, s.log, k)
      ensures s.log[k].req.Ok(m)
    {
      assert s.vals[h].Owns() !! s.log[k].req.Owns();
      PointersOwned(s.log[k].req);
      ElsewhereOk(s, m, b, s.log[k].req);
    }
    MemKeeps(s, m);
  }

  lemma AppWriteKeeps(s: Sys, h: nat, b: Buf, x: nat, byte: Byte)
    requires Inv(s) && CanAppWrite(s, h, b, x)
    ensures Inv(DoWrite(s, x, byte))
  {
    var m := s.mem[x := byte];
    var v := s.vals[h];
    assert b in v.Owns() && v.Owns() <= s.live;
    if v.Prepared? {
      assert b !in v.req.Pointers();
      ElsewhereOk(s, m, b, v.req);
    }
    WriteKeeps(s, m, b, h);
  }

  /** The buffers of one message request are apart, being live and distinct. */
  lemma OwnedApart(s: Sys, h: nat, q: Req)
    requires Inv(s) && h in s.vals && q.Msg? && s.vals[h].Owns() == q.Owns()
    requires q.region.store !in q.bufs
    ensures Inside(s.mem, q.region.store)
    ensures forall i :: 0 <= i < |q.bufs| ==> Inside(s.mem, q.bufs[i]) && Apart(q.bufs[i], q.region.store)
  {
    assert q.region.store in q.Owns();
    forall i | 0 <= i < |q.bufs|
      ensures Inside(s.mem, q.bufs[i]) && Apart(q.bufs[i], q.region.store)
    {
      assert q.bufs[i] in q.Owns();
    }
  }

  /** Handing in distinct live buffers is handing in disjoint ones. */
  lemma StorageApart(s: Sys, h: nat, q: Req, slot: seq<Byte>)
    requires Inv(s) && CanPrepareMsg(s, h, q, slot)
    ensures Owns(s.mem, q.region, q.bufs)
  {
    OwnedApart(s, h, q);
    forall i, j | 0 <= i < j < |q.bufs|
      ensures Apart(q.bufs[i], q.bufs[j])
    {
      assert q.bufs[i] in q.Owns() && q.bufs[j] in q.Owns();
    }
  }

  lemma PrepareMsgKeeps(s: Sys, h: nat, q: Req, slot: seq<Byte>)
    requires Inv(s) && CanPrepareMsg(s, h, q, slot)
    ensures Inv(DoPrepareMsg(s, h, q, slot))
  {
    var Msg(bufs, region, recv, named) := q;
    StorageApart(s, h, q, slot);
    BuildShows(s.mem, region, bufs, named, slot);
    var m := Built(s.mem, region, bufs, named, slot);
    assert region.store in q.Owns();
    WriteKeeps(s, m, region.store, h);
    ShowsImage(m, q, Whole(bufs));
    PlainFits(s.(mem := m), h, Prepared(q));
    PutKeeps(s.(mem := m), h, Prepared(q));
  }

  /** Restamping keeps the request good and writes nothing outside its store. */
  lemma ShortenOk(m: Mem, q: Req, lens: seq<nat>)
    requires q.Msg? && q.Ok(m) && |m| < Pow256(8) && |lens| == |q.bufs|
    requires Inside(m, q.region.store) && forall i :: 0 <= i < |q.bufs| ==> Inside(m, q.bufs[i])
    ensures var m' := q.region.Stamped(m, Clamped(q.bufs, lens), q.region.count);
            q.Ok(m') && SameOutside(m, m', q.region.store)
  {
    var m' := q.region.Stamped(m, Clamped(q.bufs, lens), q.region.count);
    ClampedEncodable(m, q.region, q.bufs, lens);
    q.region.StampShows(m, Clamped(q.bufs, lens));
    assert SameOutside(m, m', q.region.store) by {
      q.region.BeyondIsOutside(m, m');
    }
    assert q.Ok(m') by {
      ImageHeader(m, q);
      ShowsImage(m', q, lens);
    }
  }

  lemma ShortenKeeps(s: Sys, h: nat, lens: seq<nat>)
    requires Inv(s) && CanShorten(s, h, lens)
    ensures Inv(DoShorten(s, h, lens))
  {
    var q := s.vals[h].req;
    OwnedApart(s, h, q);
    ShortenOk(s.mem, q, lens);
    assert q.region.store in q.Owns();
    WriteKeeps(s, DoShorten(s, h, lens).mem, q.region.store, h);
  }

  lemma ClampedEncodable(m: Mem, region: Region, bufs: seq<Buf>, lens: seq<nat>)
    requires |m| < Pow256(8) && |lens| == |bufs|
    requires forall i :: 0 <= i < |bufs| ==> Inside(m, bufs[i])
    ensures region.Encodable(Clamped(bufs, lens))
  {
    var vs := Clamped(bufs, lens);
    forall v | v in vs
      ensures v.base < Pow256(8) && v.len < Pow256(8)
    {
      var i :| 0 <= i < |vs| && v == vs[i];
      assert Inside(m, bufs[i]);
    }
  }

  /** A kernel write stays in its own request and leaves its pointers alone. */
  lemma KernelWriteOk(s: Sys, k: Key, x: nat, byte: Byte, q: Req)
    requires HeapOk(s.mem, s.live, s.freed, s.nextBuf) && ActiveOk(s.mem, s.live, s.rings, s.log)
    requires Active(s.rings, s.log, k) && x < |s.mem|
    requires MayWrite(s.mem, TargetOf(s.log[k].req), x)
    requires q.Ok(s.mem) && q.Owns() <= s.live
    requires q == s.log[k].req || q.Owns() !! s.log[k].req.Owns()
    ensures q.Ok(s.mem[x := byte])
  {
    var mine := s.log[k].req;
    var m := s.mem[x := byte];
    WriteTouches(s.mem, TargetOf(mine), x);
    TouchesOwned(s.mem, mine, x);
    var b :| b in mine.Owns() && In(b, x);
    if q == mine {
      WriteSparesPointers(s.mem, q, x);
      assert q.Msg? ==> q.region.store in q.Owns();
      OkFrame(s.mem, m, q);
    } else {
      PointersOwned(q);
      ElsewhereOk(s, m, b, q);
    }
  }

  lemma KernelWriteKeeps(s: Sys, r: nat, p: nat, x: nat, byte: Byte)
    requires Inv(s) && CanKernelWrite(s, r, p, x)
    ensures Inv(DoWrite(s, x, byte))
  {
    var m := s.mem[x := byte];
    assert NamedBy(s.log, r, s.rings[r].sqes, p);
    var k := Key(r, s.rings[r].sqes[p].userData);
    assert Logged(s.rings, s.log, k) && Active(s.rings, s.log, k);
    forall g | g in s.vals && s.vals[g].HoldsReq()
      ensures s.vals[g].req.Ok(m)
    {
      KernelWriteOk(s, k, x, byte, s.vals[g].req);
    }
    forall j | Active(s.rings, s.log, j)
      ensures s.log[j].req.Ok(m)
    {
      KernelWriteOk(s, k, x, byte, s.log[j].req);
    }
    MemKeeps(s, m);
  }

  // ----- accepting an SQE -----

  lemma PushKeeps(s: Sys, h: nat, r: nat)
    requires Inv(s) && CanPush(s, h, r)
    ensures Inv(DoPush(s, h, r))
  {
    if s.rings[r].Full() {
      PushRefused(s, h, r);
    } else {
      PushAccepted(s, h, r);
    }
  }

  lemma NextIdOnly(s: Sys, r: nat)
    requires LogOk(s.rings, s.nextRing, s.log) && CqOk(s.rings, s.log) && r in s.rings
    ensures OnlyCounters(s.rings[r], s.rings[r].(nextId := s.rings[r].nextId + 1))
  {
    HeadsInRange(s, r);
  }

  lemma RefusedIs(s: Sys, h: nat, r: nat)
    requires CanPush(s, h, r) && s.rings[r].Full()
    ensures DoPush(s, h, r) == s.(rings := s.rings[r := s.rings[r].(nextId := s.rings[r].nextId + 1)])
  {
  }

  lemma PushRefused(s: Sys, h: nat, r: nat)
    requires Inv(s) && CanPush(s, h, r) && s.rings[r].Full()
    ensures Inv(DoPush(s, h, r))
  {
    var ring := s.rings[r].(nextId := s.rings[r].nextId + 1);
    NextIdOnly(s, r);
    CountersKeep(s, r, ring);
    RefusedIs(s, h, r);
  }

  lemma FreshKey(s: Sys, r: nat)
    requires LogOk(s.rings, s.nextRing, s.log) && r in s.rings
    ensures Key(r, s.rings[r].nextId) !in s.log
  {
    var k := Key(r, s.rings[r].nextId);
    assert k in s.log ==> Logged(s.rings, s.log, k);
  }

  lemma PushAccepted(s: Sys, h: nat, r: nat)
    requires Inv(s) && CanPush(s, h, r) && !s.rings[r].Full()
    ensures Inv(DoPush(s, h, r))
  {
    PushLog(s, h, r);
    PushCq(s, h, r);
    PushActive(s, h, r);
    PushTickets(s, h, r);
  }

  lemma PushLog(s: Sys, h: nat, r: nat)
    requires LogOk(s.rings, s.nextRing, s.log) && CanPush(s, h, r) && !s.rings[r].Full()
    ensures var s' := DoPush(s, h, r); LogOk(s'.rings, s'.nextRing, s'.log)
  {
    var s' := DoPush(s, h, r);
    var k0 := Key(r, s.rings[r].nextId);
    FreshKey(s, r);
    forall k | k in s'.log
      ensures Logged(s'.rings, s'.log, k)
    {
      if k != k0 {
        assert Logged(s.rings, s.log, k);
      }
    }
    forall t, p | t in s'.rings && 0 <= p < |s'.rings[t].sqes|
      ensures NamedBy(s'.log, t, s'.rings[t].sqes, p)
    {
      if t != r || p < |s.rings[r].sqes| {
        assert NamedBy(s.log, t, s.rings[t].sqes, p);
      }
    }
  }

  lemma PushCq(s: Sys, h: nat, r: nat)
    requires LogOk(s.rings, s.nextRing, s.log) && CqOk(s.rings, s.log)
    requires CanPush(s, h, r) && !s.rings[r].Full()
    ensures var s' := DoPush(s, h, r); CqOk(s'.rings, s'.log)
  {
    var s' := DoPush(s, h, r);
    FreshKey(s, r);
    forall t | t in s'.rings
      ensures RingCqOk(t, s'.rings[t], s'.log)
    {
      assert RingCqOk(t, s.rings[t], s.log);
      forall i | 0 <= i < |s'.rings[t].cqes|
        ensures CqeOk(t, s'.rings[t], s'.log, s'.rings[t].cqes[i])
      {
        assert CqeOk(t, s.rings[t], s.log, s.rings[t].cqes[i]);
      }
    }
  }

  /** The new SQE is the only new active one, and its request was only prepared. */
  lemma PushActive(s: Sys, h: nat, r: nat)
    requires Inv(s) && CanPush(s, h, r) && !s.rings[r].Full()
    ensures var s' := DoPush(s, h, r);
            && ActiveOk(s'.mem, s'.live, s'.rings, s'.log)
            && ApartOk(s'.rings, s'.log)
            && TieOk(s'.rings, s'.log, s'.vals)
  {
    var s' := DoPush(s, h, r);
    var k0 := Key(r, s.rings[r].nextId);
    var q := s.vals[h].req;
    FreshKey(s, r);
    assert OneMore(s.rings, s.log, s'.rings, s'.log, k0);
    assert s.vals[h].Owns() == q.Owns() && q.Owns() <= s.live && q.Ok(s.mem);
    forall k | Active(s.rings, s.log, k)
      ensures s.log[k].req.Owns() !! q.Owns()
    {
      assert s.vals[h].Owns() !! s.log[k].req.Owns();
    }
    forall g | g in s.vals && g != h
      ensures s.vals[g].Owns() !! q.Owns()
    {
      assert s.vals[g].Owns() !! s.vals[h].Owns();
    }
    MoreActive(s.mem, s.live, s.rings, s.log, s'.rings, s'.log, k0);
    MoreTied(s, s'.rings, s'.log, k0, h, s'.vals[h]);
  }

  /** The log gains `k0`, and nothing else becomes active. */
  ghost predicate OneMore(rings: map<nat, Ring>, log: map<Key, Issue>, rings': map<nat, Ring>, log': map<Key, Issue>, k0: Key) {
    && k0 in log' && k0 !in log && log' == log[k0 := log'[k0]]
    && forall k :: Active(rings', log', k) ==> k == k0 || Active(rings, log, k)
  }

  lemma MoreActive(mem: Mem, live: set<Buf>, rings: map<nat, Ring>, log: map<Key, Issue>,
                   rings': map<nat, Ring>, log': map<Key, Issue>, k0: Key)
    requires ActiveOk(mem, live, rings, log) && ApartOk(rings, log) && OneMore(rings, log, rings', log', k0)
    requires log'[k0].req.Owns() <= live && log'[k0].req.Ok(mem)
    requires forall k :: Active(rings, log, k) ==> log[k].req.Owns() !! log'[k0].req.Owns()
    ensures ActiveOk(mem, live, rings', log') && ApartOk(rings', log')
  {
  }

  lemma MoreTied(s: Sys, rings': map<nat, Ring>, log': map<Key, Issue>, k0: Key, h: nat, v: Value)
    requires TieOk(s.rings, s.log, s.vals) && OneMore(s.rings, s.log, rings', log', k0)
    requires v.Pending? && v.key == k0 && v.req == log'[k0].req
    requires forall g :: g in s.vals && g != h ==> s.vals[g].Owns() !! v.Owns()
    requires forall k :: Active(s.rings, s.log, k) ==> s.log[k].req.Owns() !! v.Owns()
    ensures TieOk(rings', log', s.vals[h := v])
  {
  }

  lemma PushTickets(s: Sys, h: nat, r: nat)
    requires OwnOk(s.live, s.vals, s.nextVal) && LogOk(s.rings, s.nextRing, s.log)
    requires PendOk(s.rings, s.log, s.vals) && ReceiptOk(s.rings, s.vals)
    requires CanPush(s, h, r) && !s.rings[r].Full()
    ensures var s' := DoPush(s, h, r);
            && OwnOk(s'.live, s'.vals, s'.nextVal)
            && PendOk(s'.rings, s'.log, s'.vals) && ReceiptOk(s'.rings, s'.vals)
  {
    var s' := DoPush(s, h, r);
    FreshKey(s, r);
    assert Advances(s.rings, s'.rings, s.log);
    RingsKeepTickets(s, s'.rings);
    PutOwn(s.live, s.vals, s.nextVal, h, s'.vals[h]);
    PutReceipt(s.(rings := s'.rings), h, s'.vals[h]);
    PushTicket(s, s'.rings, s'.log, h, s'.vals[h]);
  }

  /** The log grew by one fresh key, and exactly one ticket has it. */
  lemma PushTicket(s: Sys, rings': map<nat, Ring>, log': map<Key, Issue>, h: nat, v: Value)
    requires PendOk(rings', s.log, s.vals) && v.Pending? && v.key !in s.log && v.sent.None?
    requires v.key in log' && log'[v.key].req == v.req && log' == s.log[v.key := log'[v.key]]
    ensures PendOk(rings', log', s.vals[h := v])
  {
  }
}

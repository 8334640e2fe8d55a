/**
 Conservation and finality for multi-completion requests over whole runs.
 */
module MultishotRuns {
  import opened Arithmetic
  import opened Completion
  import opened Multishot
  import Queue

  predicate Possible(s: Sys, steps: seq<Step>)
    decreases |steps|
  {
    steps == [] ||
    (s.head <= |s.posted| && Enabled(s, steps[0]) && Possible(Apply(s, steps[0]), steps[1..]))
  }

  function Run(s: Sys, steps: seq<Step>): Sys
    requires Possible(s, steps)
    decreases |steps|
  {
    if steps == [] then s else Run(Apply(s, steps[0]), steps[1..])
  }

  /** Everything in `all` is the kernel's to hand out, and nothing has happened. */
  predicate Initial(s: Sys, all: set<nat>) {
    && s.all == all && s.scope.ids == {} && s.armed == {} && s.free == multiset(all)
    && s.posted == [] && s.head == 0 && s.events == [] && s.held == multiset{} && s.lost == multiset{}
  }

  function TakenIn(steps: seq<Step>, k: Token): nat {
    if steps == [] then 0 else Taken(steps[0], k) + TakenIn(steps[1..], k)
  }

  /** How often a run puts `k` back. */
  function ReturnedIn(s: Sys, steps: seq<Step>, k: Token): nat
    requires Possible(s, steps)
    decreases |steps|
  {
    if steps == [] then 0 else Returned(s, steps[0], k) + ReturnedIn(Apply(s, steps[0]), steps[1..], k)
  }

  /** How often a run recycles or clears this id while it is not the caller's to give. */
  function StrayIn(s: Sys, steps: seq<Step>, slot: nat): nat
    requires Possible(s, steps)
    decreases |steps|
  {
    if steps == [] then 0 else Stray(s, steps[0], slot) + StrayIn(Apply(s, steps[0]), steps[1..], slot)
  }

  lemma {:induction false} RunBalances(s: Sys, steps: seq<Step>, k: Token)
    requires Inv(s) && Possible(s, steps)
    ensures var e := Run(s, steps);
            Inv(e) && Out(e, k) + ReturnedIn(s, steps, k) == Out(s, k) + TakenIn(steps, k)
    decreases |steps|
  {
    if steps != [] {
      StepBalances(s, steps[0], k);
      RunBalances(Apply(s, steps[0]), steps[1..], k);
    }
  }

  lemma {:induction false} RunFree(s: Sys, steps: seq<Step>, slot: nat)
    requires Possible(s, steps)
    ensures Run(s, steps).free[slot] + TakenIn(steps, Whole(slot))
         == s.free[slot] + ReturnedIn(s, steps, Whole(slot)) + ReturnedIn(s, steps, Kept(slot)) + StrayIn(s, steps, slot)
    decreases |steps|
  {
    if steps != [] {
      FreeBalances(s, steps[0], slot);
      RunFree(Apply(s, steps[0]), steps[1..], slot);
    }
  }

  /**
   Conservation: each hand-out, whole or kept, has been undone by exactly one return or
   is still in an unreaped CQE, an unrecorded event, held, or lost. And each resource is
   in exactly one place, with the kernel or out whole, plus one for every release of a
   buffer the kernel had kept and one for every recycling of an id that was elsewhere.
   */
  lemma Conserved(s0: Sys, all: set<nat>, steps: seq<Step>, slot: nat)
    requires Initial(s0, all) && Possible(s0, steps)
    ensures var e := Run(s0, steps);
            && Inv(e)
            && TakenIn(steps, Whole(slot)) == ReturnedIn(s0, steps, Whole(slot)) + Out(e, Whole(slot))
            && TakenIn(steps, Kept(slot)) == ReturnedIn(s0, steps, Kept(slot)) + Out(e, Kept(slot))
            && e.free[slot] + Out(e, Whole(slot))
               == Bit(slot in all) + ReturnedIn(s0, steps, Kept(slot)) + StrayIn(s0, steps, slot)
  {
    RunBalances(s0, steps, Whole(slot));
    RunBalances(s0, steps, Kept(slot));
    RunFree(s0, steps, slot);
  }

  // ----- who may recycle -----

  /** The step gives the kernel nothing it has: no kept arrival is dropped and no id is recycled out of turn. */
  predicate Proper(s: Sys, st: Step) { !(st.Release? && st.token.kept) && !(st.Recycle? && Strays(s, st.slot)) }

  predicate AllProper(s: Sys, steps: seq<Step>)
    requires Possible(s, steps)
    decreases |steps|
  {
    steps == [] || (Proper(s, steps[0]) && AllProper(Apply(s, steps[0]), steps[1..]))
  }

  /** Every resource is with the kernel or out whole, never both and never twice, and there are no others. */
  ghost predicate OnePlaceEach(s: Sys, all: set<nat>) {
    s.head <= |s.posted| && forall slot: nat :: s.free[slot] + Out(s, Whole(slot)) == Bit(slot in all)
  }

  lemma {:induction false} ProperCounts(s: Sys, steps: seq<Step>, slot: nat)
    requires Possible(s, steps) && AllProper(s, steps)
    ensures ReturnedIn(s, steps, Kept(slot)) == 0 && StrayIn(s, steps, slot) == 0
    decreases |steps|
  {
    if steps != [] {
      ProperCounts(Apply(s, steps[0]), steps[1..], slot);
    }
  }

  /** Some slot pays for a step that is not proper. */
  lemma {:induction false} ImproperCounts(s: Sys, steps: seq<Step>) returns (slot: nat)
    requires Possible(s, steps) && !AllProper(s, steps)
    ensures ReturnedIn(s, steps, Kept(slot)) + StrayIn(s, steps, slot) > 0
    decreases |steps|
  {
    if Proper(s, steps[0]) {
      slot := ImproperCounts(Apply(s, steps[0]), steps[1..]);
    } else if steps[0].Release? {
      slot := steps[0].token.slot;
      assert steps[0].token == Kept(slot);
    } else {
      slot := steps[0].slot;
    }
  }

  /**
   Giving back is right exactly when no arrival that came with `BUF_MORE` is dropped and
   no id is recycled that is elsewhere: then, and only then, each resource is in one place.
   */
  lemma OnePlaceIffProper(s0: Sys, all: set<nat>, steps: seq<Step>)
    requires Initial(s0, all) && Possible(s0, steps)
    ensures OnePlaceEach(Run(s0, steps), all) <==> AllProper(s0, steps)
  {
    var e := Run(s0, steps);
    Conserved(s0, all, steps, 0);
    if AllProper(s0, steps) {
      forall slot: nat
        ensures e.free[slot] + Out(e, Whole(slot)) == Bit(slot in all)
      {
        Conserved(s0, all, steps, slot);
        ProperCounts(s0, steps, slot);
      }
    } else {
      var slot := ImproperCounts(s0, steps);
      Conserved(s0, all, steps, slot);
      assert e.free[slot] + Out(e, Whole(slot)) != Bit(slot in all);
    }
  }

  /** The kernel has a buffer at most once exactly while returns do not exceed whole deliveries. */
  lemma AtMostOnceIff(s0: Sys, all: set<nat>, steps: seq<Step>, slot: nat)
    requires Initial(s0, all) && Possible(s0, steps) && slot in all
    ensures Run(s0, steps).free[slot] <= 1 <==>
            ReturnedIn(s0, steps, Whole(slot)) + ReturnedIn(s0, steps, Kept(slot)) + StrayIn(s0, steps, slot)
              <= TakenIn(steps, Whole(slot))
  {
    RunFree(s0, steps, slot);
  }

  lemma {:induction false} PrefixPossible(s: Sys, steps: seq<Step>, n: nat)
    requires Possible(s, steps) && n <= |steps|
    ensures Possible(s, steps[..n])
    decreases |steps|
  {
    if n > 0 {
      PrefixPossible(Apply(s, steps[0]), steps[1..], n - 1);
      assert steps[..n][1..] == steps[1..][..n - 1];
    }
  }

  /** At no moment of the run does the kernel have this buffer twice. */
  ghost predicate NeverTwice(s0: Sys, steps: seq<Step>, slot: nat) {
    forall n: nat :: n <= |steps| ==> Possible(s0, steps[..n]) && Run(s0, steps[..n]).free[slot] <= 1
  }

  /** Up to this moment no more of this buffer has come back than was delivered whole. */
  predicate NotAhead(s0: Sys, steps: seq<Step>, slot: nat)
    requires Possible(s0, steps)
  {
    ReturnedIn(s0, steps, Whole(slot)) + ReturnedIn(s0, steps, Kept(slot)) + StrayIn(s0, steps, slot)
      <= TakenIn(steps, Whole(slot))
  }

  /** The same at every moment of a run: the exact condition of what double recycling breaks. */
  lemma NeverTwiceIff(s0: Sys, all: set<nat>, steps: seq<Step>, slot: nat)
    requires Initial(s0, all) && Possible(s0, steps) && slot in all
    ensures NeverTwice(s0, steps, slot)
       <==> forall n: nat :: n <= |steps| ==> Possible(s0, steps[..n]) && NotAhead(s0, steps[..n], slot)
  {
    forall n: nat | n <= |steps|
      ensures Possible(s0, steps[..n])
      ensures Run(s0, steps[..n]).free[slot] <= 1 <==> NotAhead(s0, steps[..n], slot)
    {
      PrefixPossible(s0, steps, n);
      AtMostOnceIff(s0, all, steps[..n], slot);
    }
  }

  lemma {:induction false} PrefixProper(s: Sys, steps: seq<Step>, n: nat)
    requires Possible(s, steps) && AllProper(s, steps) && n <= |steps|
    ensures Possible(s, steps[..n]) && AllProper(s, steps[..n])
    decreases |steps|
  {
    if n > 0 {
      PrefixProper(Apply(s, steps[0]), steps[1..], n - 1);
      assert steps[..n][1..] == steps[1..][..n - 1];
    }
  }

  /** A caller who forgets arrivals that came with `BUF_MORE` and recycles ids only in turn never doubles a buffer. */
  lemma ProperIsSafe(s0: Sys, all: set<nat>, steps: seq<Step>, slot: nat)
    requires Initial(s0, all) && Possible(s0, steps) && AllProper(s0, steps)
    ensures NeverTwice(s0, steps, slot)
  {
    forall n: nat | n <= |steps|
      ensures Possible(s0, steps[..n]) && Run(s0, steps[..n]).free[slot] <= 1
    {
      PrefixProper(s0, steps, n);
      Conserved(s0, all, steps[..n], slot);
      ProperCounts(s0, steps[..n], slot);
    }
  }

  lemma Prepend(s: Sys, st: Step, rest: seq<Step>)
    requires s.head <= |s.posted| && Enabled(s, st) && Possible(Apply(s, st), rest)
    ensures Possible(s, [st] + rest) && Run(s, [st] + rest) == Run(Apply(s, st), rest)
  {
    assert ([st] + rest)[1..] == rest;
  }

  /** Once the kernel has delivered a slot it keeps, recording and dropping the arrival adds a second copy. */
  lemma KeptThenReleased(s: Sys, t: Ticket, slot: nat, len: nat)
    requires s.scope.kind == Recv && s.scope.ring == t.ring && t.id in s.scope.ids && slot < 0x1_0000
    requires s.posted == [Carrying(Recv, t.id, slot, len, true, false, true)] && s.head == 0
    requires s.events == [] && s.held == multiset{} && s.free == multiset{slot}
    ensures var rest := [ReapEvent] + ([RecordEvent(t, 0)] + ([Release(Kept(slot))] + []));
            Possible(s, rest) && Run(s, rest).free == multiset{slot, slot}
  {
    RecordInvertsKernel(Recv, t, slot, len, true, false, true);
    var s1 := Apply(s, ReapEvent);
    var s2 := Apply(s1, RecordEvent(t, 0));
    assert s2.held == multiset{Kept(slot)};
    Prepend(s2, Release(Kept(slot)), []);
    Prepend(s1, RecordEvent(t, 0), [Release(Kept(slot))] + []);
    Prepend(s, ReapEvent, [RecordEvent(t, 0)] + ([Release(Kept(slot))] + []));
  }

  /** With an incremental pool, one delivery and one drop give the kernel the buffer twice. */
  lemma IncrementalPoolRecyclesTwice(s0: Sys, slot: nat, len: nat) returns (steps: seq<Step>)
    requires Initial(s0, {slot}) && s0.scope.kind == Recv && slot < 0x1_0000
    ensures Possible(s0, steps) && Run(s0, steps).free == multiset{slot, slot}
  {
    var t := Ticket(s0.scope.ring, s0.nextId);
    var s1 := Apply(s0, Issue(true));
    var deliver := Deliver(s0.nextId, slot, len, true, false, true);
    var s2 := Apply(s1, deliver);
    var rest := [ReapEvent] + ([RecordEvent(t, 0)] + ([Release(Kept(slot))] + []));
    FlagsDecode(Some(slot), true, false, false, true);
    KeptThenReleased(s2, t, slot, len);
    Prepend(s1, deliver, rest);
    Prepend(s0, Issue(true), [deliver] + rest);
    steps := [Issue(true)] + ([deliver] + rest);
  }

  /** So does recycling an id the kernel has, with no arrival and no `BUF_MORE` in sight. */
  lemma DirectRecycleDoubles(s0: Sys, slot: nat)
    requires Initial(s0, {slot}) && s0.scope.kind == Recv
    ensures var steps := [Recycle(slot)] + [];
            Possible(s0, steps) && Run(s0, steps).free == multiset{slot, slot}
  {
    Prepend(s0, Recycle(slot), []);
  }

  /** Recording the delivery of one table slot leaves it held. */
  lemma InstalledIsHeld(s: Sys, t: Ticket, slot: nat)
    requires s.scope.kind == Direct && s.scope.ring == t.ring && t.id in s.scope.ids && slot < U32 / 2
    requires s.posted == [Carrying(Direct, t.id, slot, 0, true, false, false)] && s.head == 0
    requires s.all == {slot} && s.events == [] && s.held == s.lost == multiset{} && s.free == multiset{}
    ensures var rest := [ReapEvent] + ([RecordEvent(t, 0)] + ([Recycle(slot)] + []));
            Possible(s, rest) && Run(s, rest).held == multiset{Whole(slot)} && Run(s, rest).free == multiset{slot}
  {
    RecordInvertsKernel(Direct, t, slot, 0, true, false, false);
    var s1 := Apply(s, ReapEvent);
    var s2 := Apply(s1, RecordEvent(t, 0));
    assert s2.held == multiset{Whole(slot)};
    Prepend(s2, Recycle(slot), []);
    Prepend(s1, RecordEvent(t, 0), [Recycle(slot)] + []);
    Prepend(s, ReapEvent, [RecordEvent(t, 0)] + ([Recycle(slot)] + []));
  }

  /** Clearing a table slot by its index while its `DirectSlot` is held lets the kernel hand it out again. */
  lemma ClearedWhileHeld(s0: Sys, slot: nat) returns (steps: seq<Step>)
    requires Initial(s0, {slot}) && s0.scope.kind == Direct && slot < U32 / 2
    ensures Possible(s0, steps) && Whole(slot) in Run(s0, steps).held && slot in Run(s0, steps).free
  {
    var t := Ticket(s0.scope.ring, s0.nextId);
    var s1 := Apply(s0, Issue(true));
    var deliver := Deliver(s0.nextId, slot, 0, true, false, false);
    var s2 := Apply(s1, deliver);
    var rest := [ReapEvent] + ([RecordEvent(t, 0)] + ([Recycle(slot)] + []));
    FlagsDecode(None, true, false, false, false);
    InstalledIsHeld(s2, t, slot);
    Prepend(s1, deliver, rest);
    Prepend(s0, Issue(true), [deliver] + rest);
    steps := [Issue(true)] + ([deliver] + rest);
  }

  // ----- losing nothing -----

  /** Steps that never throw away a completion, nor a live resource that the kernel gave up. */
  predicate Careful(steps: seq<Step>) {
    forall i :: 0 <= i < |steps| ==>
      !steps[i].Reap? && !steps[i].DropEvent? && !(steps[i].Forget? && !steps[i].token.kept)
  }

  lemma {:induction false} CarefulLosesNothing(s: Sys, steps: seq<Step>, slot: nat)
    requires Possible(s, steps) && Careful(steps)
    ensures Run(s, steps).lost[Whole(slot)] <= s.lost[Whole(slot)]
    decreases |steps|
  {
    if steps != [] {
      assert Careful(steps[1..]) by {
        assert forall i :: 0 <= i < |steps[1..]| ==> steps[1..][i] == steps[i + 1];
      }
      CarefulLosesNothing(Apply(s, steps[0]), steps[1..], slot);
    }
  }

  /** Nothing is left to reap, to record or to release, and nothing is lost that was given up whole. */
  predicate Settled(s: Sys) {
    s.head == |s.posted| && s.events == [] && s.held == multiset{} && forall k :: k in s.lost ==> k.kept
  }

  /**
   A proper run that settles has given back, once each, exactly what was delivered
   whole, through arrivals or by recycling what it had let go: the kernel has its whole
   pool or table back.
   */
  lemma SettledRunsReturnAll(s0: Sys, all: set<nat>, steps: seq<Step>)
    requires Initial(s0, all) && Possible(s0, steps) && AllProper(s0, steps) && Settled(Run(s0, steps))
    ensures Run(s0, steps).free == multiset(all)
    ensures forall slot: nat :: TakenIn(steps, Whole(slot)) == ReturnedIn(s0, steps, Whole(slot))
  {
    var e := Run(s0, steps);
    forall slot: nat
      ensures e.free[slot] == Bit(slot in all) && TakenIn(steps, Whole(slot)) == ReturnedIn(s0, steps, Whole(slot))
    {
      Conserved(s0, all, steps, slot);
      ProperCounts(s0, steps, slot);
      assert Unreaped(e) == [];
      assert e.lost[Whole(slot)] == 0;
    }
  }

  /** A careful one needs only to reap, record and release everything. */
  lemma CarefulRunsReturnAll(s0: Sys, all: set<nat>, steps: seq<Step>)
    requires Initial(s0, all) && Possible(s0, steps) && Careful(steps) && AllProper(s0, steps)
    requires var e := Run(s0, steps); e.head == |e.posted| && e.events == [] && e.held == multiset{}
    ensures Run(s0, steps).free == multiset(all)
    ensures forall slot: nat :: TakenIn(steps, Whole(slot)) == ReturnedIn(s0, steps, Whole(slot))
  {
    var e := Run(s0, steps);
    forall k | k in e.lost
      ensures k.kept
    {
      CarefulLosesNothing(s0, steps, k.slot);
      assert !k.kept ==> k == Whole(k.slot);
    }
    SettledRunsReturnAll(s0, all, steps);
  }

  /** What a caller holds whole is its own: one of `all`, held once, and nowhere else. */
  lemma HeldAlone(s0: Sys, all: set<nat>, steps: seq<Step>, slot: nat)
    requires Initial(s0, all) && Possible(s0, steps) && AllProper(s0, steps) && Whole(slot) in Run(s0, steps).held
    ensures var e := Run(s0, steps);
            && Inv(e) && slot in all && e.held[Whole(slot)] == 1 && slot !in e.free && Whole(slot) !in e.lost
            && e.scope.Count(Unreaped(e), Whole(slot)) == 0 && e.scope.Count(e.events, Whole(slot)) == 0
  {
    Conserved(s0, all, steps, slot);
    ProperCounts(s0, steps, slot);
  }

  /** For one held resource the condition is exact: nothing else may have been given back of it out of turn. */
  lemma HeldAloneIff(s0: Sys, all: set<nat>, steps: seq<Step>, slot: nat)
    requires Initial(s0, all) && Possible(s0, steps) && Whole(slot) in Run(s0, steps).held && slot in all
    ensures var e := Run(s0, steps);
            && Inv(e)
            && (e.free[slot] + Out(e, Whole(slot)) == 1
                <==> ReturnedIn(s0, steps, Kept(slot)) + StrayIn(s0, steps, slot) == 0)
  {
    Conserved(s0, all, steps, slot);
  }

  lemma {:induction false} FewerThan(part: set<nat>, all: set<nat>, x: nat)
    requires part <= all && x in all && x !in part
    ensures |part| < |all|
    decreases part
  {
    if part != {} {
      var y :| y in part;
      FewerThan(part - {y}, all - {y}, x);
    }
  }

  /**
   While something is held, the kernel's pool is short of it: putting it back cannot
   overrun a ring that has one place for every buffer.
   */
  lemma RoomToRecycle(s0: Sys, all: set<nat>, steps: seq<Step>, slot: nat)
    requires Initial(s0, all) && Possible(s0, steps) && AllProper(s0, steps) && Whole(slot) in Run(s0, steps).held
    ensures |Run(s0, steps).free| < |all|
  {
    var e := Run(s0, steps);
    var part := set x | x in all && x in e.free;
    HeldAlone(s0, all, steps, slot);
    forall x: nat
      ensures e.free[x] == multiset(part)[x]
    {
      Conserved(s0, all, steps, x);
      ProperCounts(s0, steps, x);
    }
    assert e.free == multiset(part);
    FewerThan(part, all, slot);
  }

  /** Only pool buffers are ever kept: accepts have none to drop. */
  lemma {:induction false} OnlyPoolsKeep(s: Sys, steps: seq<Step>, slot: nat)
    requires Inv(s) && Possible(s, steps) && s.scope.kind != Recv && Out(s, Kept(slot)) == 0
    ensures ReturnedIn(s, steps, Kept(slot)) == 0
    ensures Inv(Run(s, steps)) && Out(Run(s, steps), Kept(slot)) == 0
    decreases |steps|
  {
    if steps != [] {
      ApplyKeepsKind(s, steps[0]);
      StepBalances(s, steps[0], Kept(slot));
      OnlyPoolsKeep(Apply(s, steps[0]), steps[1..], slot);
    }
  }

  lemma {:induction false} ReapKeepsScope(s: Sys)
    requires s.head <= |s.posted|
    ensures DoReap(s).scope == s.scope && DoReap(s).posted == s.posted
    decreases |s.posted| - s.head
  {
    if s.head < |s.posted| && !s.posted[s.head].Terminal() {
      ReapKeepsScope(DoSkip(s));
    }
  }

  lemma ApplyKeepsKind(s: Sys, st: Step)
    requires s.head <= |s.posted| && Enabled(s, st)
    ensures var s' := Apply(s, st);
            && s'.scope.kind == s.scope.kind && s'.scope.ring == s.scope.ring
            && s.scope.ids <= s'.scope.ids && s.posted <= s'.posted
  {
    ReapKeepsScope(s);
  }

  // ----- finality -----

  lemma {:induction false} HistoryGrows(s: Sys, steps: seq<Step>)
    requires Inv(s) && Possible(s, steps)
    ensures var e := Run(s, steps);
            Inv(e) && e.scope.ring == s.scope.ring && s.scope.ids <= e.scope.ids && s.posted <= e.posted
    decreases |steps|
  {
    if steps != [] {
      StepKeeps(s, steps[0]);
      ApplyKeepsKind(s, steps[0]);
      HistoryGrows(Apply(s, steps[0]), steps[1..]);
    }
  }

  /**
   Once some completion says `Done`, the kernel has stopped: the request is no
   longer armed, and in every continuation no completion not yet reaped, and none
   ever posted again, belongs to that ticket.
   */
  lemma DoneIsFinal(s: Sys, t: Ticket, k: nat, steps: seq<Step>)
    requires Inv(s) && k < |s.events| && t.ring == s.scope.ring && t.id in s.scope.ids
    requires var r := Record(s.scope.kind, t, s.events[k]); r.Interpreted? && !r.delivery.Armed()
    requires Possible(s, steps)
    ensures t.id !in s.armed
    ensures var e := Run(s, steps);
            forall j :: s.head <= j < |e.posted| ==> !EventOf(t.ring, e.posted[j]).BelongsTo(t.ring, t.id)
  {
    assert FromCq(s.scope.ring, s.posted[..s.head], s.events[k]);
    var i :| 0 <= i < s.head && EventOf(s.scope.ring, s.posted[..s.head][i]) == s.events[k];
    assert s.posted[i].userData == t.id && s.posted[i].Terminal() && PostedOk(s, i);
    HistoryGrows(s, steps);
    var e := Run(s, steps);
    assert e.posted[i] == s.posted[i];
    forall j | s.head <= j < |e.posted|
      ensures !EventOf(t.ring, e.posted[j]).BelongsTo(t.ring, t.id)
    {
      assert e.posted[j].userData != e.posted[i].userData;
    }
  }

  /**
   In any reachable state, what a recorded `Done` says is what the kernel posted last for
   that request, result and flags, and the posted result is the errno or the count that
   ended it.
   */
  lemma DoneTellsTheEnd(s0: Sys, all: set<nat>, steps: seq<Step>, t: Ticket, k: nat)
    requires Initial(s0, all) && Possible(s0, steps)
    requires var s := Run(s0, steps); k < |s.events| && t.ring == s.scope.ring && t.id in s.scope.ids
    requires var r := Record(Run(s0, steps).scope.kind, t, Run(s0, steps).events[k]); r.Interpreted? && r.delivery.Done?
    ensures var s := Run(s0, steps);
            var d := Record(s.scope.kind, t, s.events[k]).delivery;
            && d.receipt.ring == t.ring && d.receipt.id == t.id
            && s.head <= |s.posted|
            && (exists i :: 0 <= i < s.head && s.posted[i] == Cqe(t.id, d.receipt.result, d.receipt.flags)
                  && !Has(s.posted[i].flags, MORE) && LastOf(s, t.id, i))
            && (forall errno: nat :: d.Ended() == Failed(errno) <==> errno > 0 && d.receipt.result + errno == 0)
            && (forall count: nat :: d.Ended() == Ok(count) <==> d.receipt.result == count)
  {
    Conserved(s0, all, steps, 0);
    var s := Run(s0, steps);
    assert FromCq(s.scope.ring, s.posted[..s.head], s.events[k]);
    var i :| 0 <= i < s.head && EventOf(s.scope.ring, s.posted[..s.head][i]) == s.events[k];
    var d := Record(s.scope.kind, t, s.events[k]).delivery;
    EventCarries(s.scope.ring, s.posted[i]);
    assert s.posted[i] == Cqe(t.id, d.receipt.result, d.receipt.flags) && s.posted[i].Terminal();
    assert LastOf(s, t.id, i);
    OutcomeSays(d.receipt.result);
  }

  /** No completion of request `id` comes after position `i`. */
  predicate LastOf(s: Sys, id: nat, i: nat) { forall j :: i < j < |s.posted| ==> s.posted[j].userData != id }

  /** What `reap` here leaves is what it answers on the queue: the receipt as an event, the rest of what it passed lost. */
  lemma {:induction false} ReapMatchesQueue(s: Sys)
    requires s.head <= |s.posted|
    ensures var s' := DoReap(s);
            var p := Queue.ReceiptAt(s.scope.ring, s.posted, s.head);
            && s'.head == p.from && s'.held == s.held && s'.free == s.free && s'.posted == s.posted
            && s'.events == s.events + (if p.value.Some? then [Complete(p.value.value)] else [])
    decreases |s.posted| - s.head
  {
    if s.head < |s.posted| && !s.posted[s.head].Terminal() {
      ReapMatchesQueue(DoSkip(s));
    }
  }

  /** The completion a kernel step posts for request `id`, if it posts one. */
  function PostsFor(s: Sys, st: Step, id: nat): Option<Cqe> {
    match st
    case Deliver(i, slot, len, more, sock, bufMore) =>
      if i == id then Some(Carrying(s.scope.kind, i, slot, len, more, sock, bufMore)) else None
    case Report(i, result, more, sock) => if i == id then Some(Bare(i, result, more, sock)) else None
    case Foreign(c) => if c.userData == id then Some(c) else None
    case _ => None
  }

  /**
   With the table full, whatever the kernel next posts for a table accept is
   recorded as `Done` with no slot, and it stays disarmed.
   */
  lemma FullTableEnds(s: Sys, t: Ticket, st: Step)
    requires Inv(s) && s.scope.kind == Direct && t.ring == s.scope.ring && t.id in s.scope.ids
    requires s.free == multiset{} && Enabled(s, st) && PostsFor(s, st, t.id).Some?
    ensures var r := Record(Direct, t, EventOf(t.ring, PostsFor(s, st, t.id).value));
            r.Interpreted? && r.delivery.Done? && r.delivery.last == None
    ensures t.id !in Apply(s, st).armed
  {
    BareCarriesNothing(Direct, t, st.result, st.more, st.sock);
  }
}

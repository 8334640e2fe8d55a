/**
 What zero-copy sends report in protocol runs: a finished value's send result is the
 last one that was recorded on its ticket.
 */
module ZeroCopyRuns {
  import opened Footprint
  import opened Completion
  import opened Protocol
  import opened ProtocolSteps
  import opened ProtocolRuns
  import Z = ZeroCopy

  /** The protocol's ticket as `PendingZc`, and its finished value as `ZcCompleted`. */
  function TicketOf(v: Value): Z.Pending<Req>
    requires v.Pending?
  {
    Z.Pending(v.key.ring, v.key.id, v.req, v.sent)
  }

  function DoneOf(v: Value): Z.Completed<Req>
    requires v.Completed?
  {
    Z.Completed(v.req, v.sent, v.receipt.result)
  }

  /**
   Recording a notice of this ticket's leaves the ticket holding exactly its result and
   uses it up; any other notice changes nothing. It is `record_sent` on the ticket.
   */
  lemma RecordHolds(s: Sys, h: nat, n: nat)
    requires CanRecordSent(s, h, n)
    ensures var notice := s.vals[n].partial;
            var s' := DoRecordSent(s, h, n);
            if notice.ring == s.vals[h].key.ring && notice.id == s.vals[h].key.id then
              && h in s'.vals && s'.vals[h].Pending? && s'.vals[h].sent == Some(notice.result)
              && s'.vals[h].key == s.vals[h].key && s'.vals[h].req == s.vals[h].req
              && n !in s'.vals && (forall g :: g != h && g != n ==> (g in s'.vals <==> g in s.vals))
              && (forall g :: g != h && g != n && g in s.vals ==> s'.vals[g] == s.vals[g])
              && TicketOf(s'.vals[h]) == TicketOf(s.vals[h]).RecordSent(notice)
            else s' == s
  {
  }

  /** Redeeming is offering the receipt: the storage, the recorded result and the posted one come out together. */
  lemma RedeemOffers(s: Sys, h: nat, rc: nat)
    requires CanRedeem(s, h, rc) && Matches(s, h, rc)
    ensures var s' := DoRedeem(s, h, rc);
            && h in s'.vals && s'.vals[h].Completed?
            && s'.vals[h].sent == s.vals[h].sent && s'.vals[h].receipt == s.vals[rc].receipt
            && Z.Offer(Z.Holding(TicketOf(s.vals[h])), Complete(s.vals[rc].receipt)) == Z.Released(DoneOf(s'.vals[h]))
  {
  }

  // ----- over whole runs -----

  predicate Records(s: Sys, st: Step) {
    st.RecordSent? && CanRecordSent(s, st.h, st.notice) &&
    s.vals[st.notice].partial.BelongsTo(s.vals[st.h].key.ring, s.vals[st.h].key.id)
  }

  /** The notice a step records, if it records one. */
  function RecordedBy(s: Sys, st: Step): seq<Event> {
    if Records(s, st) then [Partial(s.vals[st.notice].partial)] else []
  }

  /** All notices recorded in a run, in order. */
  function RecordedIn(s: Sys, steps: seq<Step>): seq<Event>
    requires Possible(s, steps)
    decreases |steps|
  {
    if steps == [] then [] else RecordedBy(s, steps[0]) + RecordedIn(Apply(s, steps[0]), steps[1..])
  }

  /** The last of these notices that is for request `k`. */
  function LastFor(k: Key, past: seq<Event>): Option<int> {
    Z.LastNotice(Z.Pending(k.ring, k.id, (), None), past)
  }

  ghost predicate SentOk(s: Sys, past: seq<Event>) {
    && (forall h :: h in s.vals && s.vals[h].Pending? ==> s.vals[h].sent == LastFor(s.vals[h].key, past))
    && (forall h :: h in s.vals && s.vals[h].Completed? ==> s.vals[h].sent == LastFor(KeyOf(s.vals[h].receipt), past))
    && (forall h, g :: h in s.vals && g in s.vals && s.vals[h].Pending? && s.vals[g].Completed? ==>
          s.vals[h].key != KeyOf(s.vals[g].receipt))
    && (forall i :: 0 <= i < |past| ==> Key(past[i].Ring(), past[i].Id()) in s.log)
  }

  lemma LastForMore(k: Key, past: seq<Event>, e: Event)
    ensures LastFor(k, past + [e])
         == if e.Partial? && e.Ring() == k.ring && e.Id() == k.id then Some(e.Result()) else LastFor(k, past)
  {
    assert (past + [e])[..|past|] == past;
  }

  lemma {:induction false} LastForFresh(k: Key, past: seq<Event>)
    requires forall i :: 0 <= i < |past| ==> Key(past[i].Ring(), past[i].Id()) != k
    ensures LastFor(k, past) == None
  {
    if past != [] {
      LastForFresh(k, past[..|past| - 1]);
    }
  }

  lemma LogGrows(s: Sys, st: Step)
    requires Enabled(s, st)
    ensures forall k :: k in s.log ==> k in Apply(s, st).log
  {
  }

  lemma RecordKeepsTickets(s: Sys, h: nat, n: nat, past: seq<Event>, g: nat)
    requires PendOk(s.rings, s.log, s.vals) && SentOk(s, past) && Records(s, RecordSent(h, n))
    requires g in DoRecordSent(s, h, n).vals && DoRecordSent(s, h, n).vals[g].Pending?
    ensures var v := DoRecordSent(s, h, n).vals[g];
            v.sent == LastFor(v.key, past + [Partial(s.vals[n].partial)])
  {
    LastForMore(DoRecordSent(s, h, n).vals[g].key, past, Partial(s.vals[n].partial));
  }

  lemma RecordKeepsDone(s: Sys, h: nat, n: nat, past: seq<Event>, g: nat)
    requires SentOk(s, past) && Records(s, RecordSent(h, n))
    requires g in DoRecordSent(s, h, n).vals && DoRecordSent(s, h, n).vals[g].Completed?
    ensures var v := DoRecordSent(s, h, n).vals[g];
            && v.sent == LastFor(KeyOf(v.receipt), past + [Partial(s.vals[n].partial)])
            && KeyOf(v.receipt) != s.vals[h].key
  {
    assert s.vals[g] == DoRecordSent(s, h, n).vals[g];
    LastForMore(KeyOf(s.vals[g].receipt), past, Partial(s.vals[n].partial));
  }

  lemma RecordKeepsSent(s: Sys, h: nat, n: nat, past: seq<Event>)
    requires PendOk(s.rings, s.log, s.vals) && SentOk(s, past) && Records(s, RecordSent(h, n))
    ensures SentOk(DoRecordSent(s, h, n), past + [Partial(s.vals[n].partial)])
  {
    var e := Partial(s.vals[n].partial);
    var s' := DoRecordSent(s, h, n);
    assert Key(e.Ring(), e.Id()) == s.vals[h].key;
    forall g | g in s'.vals && s'.vals[g].Pending?
      ensures s'.vals[g].sent == LastFor(s'.vals[g].key, past + [e])
    {
      RecordKeepsTickets(s, h, n, past, g);
    }
    forall g | g in s'.vals && s'.vals[g].Completed?
      ensures s'.vals[g].sent == LastFor(KeyOf(s'.vals[g].receipt), past + [e])
    {
      RecordKeepsDone(s, h, n, past, g);
    }
  }

  lemma RedeemKeepsSent(s: Sys, h: nat, rc: nat, past: seq<Event>)
    requires PendOk(s.rings, s.log, s.vals) && SentOk(s, past) && CanRedeem(s, h, rc)
    ensures SentOk(DoRedeem(s, h, rc), past)
  {
  }

  lemma PushKeepsSent(s: Sys, h: nat, r: nat, past: seq<Event>)
    requires Inv(s) && SentOk(s, past) && CanPush(s, h, r)
    ensures SentOk(DoPush(s, h, r), past)
  {
    if !s.rings[r].Full() {
      var k := Key(r, s.rings[r].nextId);
      FreshKey(s, r);
      LastForFresh(k, past);
      forall g | g in s.vals && s.vals[g].Completed?
        ensures KeyOf(s.vals[g].receipt) != k
      {
        MintedDone(s, s.vals[g].receipt);
      }
    }
  }

  /** Every other step neither makes nor changes a ticket or a finished value. */
  ghost predicate NoNewTickets(s: Sys, s': Sys) {
    forall h :: h in s'.vals && (s'.vals[h].Pending? || s'.vals[h].Completed?) ==> h in s.vals && s.vals[h] == s'.vals[h]
  }

  predicate MakesTickets(st: Step) { st.Push? || st.Redeem? || st.RecordSent? }

  predicate AddsValue(st: Step) { st.Allocate? || st.Divide? || st.Arm? || st.ReapEvent? }

  lemma AddingMakesNone(s: Sys, st: Step)
    requires Enabled(s, st) && AddsValue(st)
    ensures NoNewTickets(s, Apply(s, st))
  {
  }

  predicate ChangesValue(st: Step) {
    || st.Join? || st.Prepare? || st.Adopt? || st.AddPath? || st.AddSpans? || st.PrepareMsg? || st.IntoParts? || st.Drop?
  }

  lemma ChangingMakesNone(s: Sys, st: Step)
    requires Enabled(s, st) && ChangesValue(st)
    ensures NoNewTickets(s, Apply(s, st))
  {
  }

  lemma OthersMakeNone(s: Sys, st: Step)
    requires Enabled(s, st) && !MakesTickets(st) && !AddsValue(st) && !ChangesValue(st)
    ensures NoNewTickets(s, Apply(s, st))
  {
  }

  lemma QuietKeepsSent(s: Sys, st: Step, past: seq<Event>)
    requires SentOk(s, past) && Enabled(s, st) && !MakesTickets(st)
    ensures SentOk(Apply(s, st), past)
  {
    if AddsValue(st) {
      AddingMakesNone(s, st);
    } else if ChangesValue(st) {
      ChangingMakesNone(s, st);
    } else {
      OthersMakeNone(s, st);
    }
    LogGrows(s, st);
  }

  lemma StepKeepsSent(s: Sys, st: Step, past: seq<Event>)
    requires Inv(s) && SentOk(s, past) && Enabled(s, st)
    ensures SentOk(Apply(s, st), past + RecordedBy(s, st))
  {
    assert past + [] == past;
    if st.RecordSent? {
      if Records(s, st) {
        RecordKeepsSent(s, st.h, st.notice, past);
      }
    } else if st.Redeem? {
      RedeemKeepsSent(s, st.h, st.receipt, past);
    } else if st.Push? {
      PushKeepsSent(s, st.h, st.ring, past);
    } else {
      QuietKeepsSent(s, st, past);
    }
  }

  lemma Regroup(a: seq<Event>, b: seq<Event>, c: seq<Event>)
    ensures a + b + c == a + (b + c)
  {
  }

  lemma RecordedFirst(s: Sys, steps: seq<Step>)
    requires Possible(s, steps) && steps != []
    ensures RecordedIn(s, steps) == RecordedBy(s, steps[0]) + RecordedIn(Apply(s, steps[0]), steps[1..])
  {
  }

  lemma {:induction false} SentInRun(s: Sys, steps: seq<Step>, past: seq<Event>)
    requires Inv(s) && SentOk(s, past) && Possible(s, steps)
    ensures SentOk(Run(s, steps), past + RecordedIn(s, steps))
    decreases |steps|
  {
    if steps == [] {
      assert past + [] == past;
    } else {
      StepKeeps(s, steps[0]);
      StepKeepsSent(s, steps[0], past);
      SentInRun(Apply(s, steps[0]), steps[1..], past + RecordedBy(s, steps[0]));
      Regroup(past, RecordedBy(s, steps[0]), RecordedIn(Apply(s, steps[0]), steps[1..]));
      RecordedFirst(s, steps);
    }
  }

  /**
   In every run, a ticket's send result is that of the last notice recorded on it, if
   any, and a finished value keeps it: its outcome is then the recorded one, and without
   a record the one the terminal completion carried.
   */
  lemma SentIsLastRecorded(s0: Sys, steps: seq<Step>, h: nat)
    requires Initial(s0) && Possible(s0, steps) && h in Run(s0, steps).vals
    ensures var v := Run(s0, steps).vals[h];
            var recorded := RecordedIn(s0, steps);
            && (v.Pending? ==> v.sent == LastFor(v.key, recorded))
            && (v.Completed? ==>
                  && v.sent == LastFor(KeyOf(v.receipt), recorded)
                  && DoneOf(v).Result() ==
                     match LastFor(KeyOf(v.receipt), recorded)
                     case Some(n) => OutcomeOf(n)
                     case None => OutcomeOf(v.receipt.result))
  {
    InitialInv(s0);
    SentInRun(s0, steps, []);
    assert [] + RecordedIn(s0, steps) == RecordedIn(s0, steps);
  }
}
